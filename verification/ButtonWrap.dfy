/** The run in which the 16-bit count of the buttons left wraps, on handles that are numbers. */
module ButtonWrap {
  import opened Button
  import opened ButtonFleet

  function Creates(n: nat): seq<Op<nat>> {
    seq(n, i => OpCreate(i, true))
  }

  lemma {:induction false} CreatesList(t: Ticks, n: nat)
    ensures var f := After(t, Creates(n));
            && |f.entries| == n && (f.running <==> n > 0)
            && forall i :: 0 <= i < n ==> f.entries[i].id == n - 1 - i
  {
    if n > 0 {
      assert Creates(n)[..n - 1] == Creates(n - 1);
      CreatesList(t, n - 1);
    }
  }

  lemma HasNone<Id>(es: seq<Entry<Id>>, id: Id)
    requires forall i :: 0 <= i < |es| ==> es[i].id != id
    ensures !Has(es, id)
  {
  }

  lemma {:induction false} WithoutLast<Id>(es: seq<Entry<Id>>, id: Id)
    requires es != [] && es[|es| - 1].id == id && forall i :: 0 <= i < |es| - 1 ==> es[i].id != id
    ensures WithoutId(es, id) == es[..|es| - 1]
  {
    if |es| == 1 {
      assert es[1..] == [];
    } else {
      WithoutLast(es[1..], id);
      assert es[..|es| - 1] == [es[0]] + es[1..][..|es| - 2];
    }
  }

  /** n buttons created, the oldest deleted. */
  function DeleteOldest(n: nat): seq<Op<nat>> {
    Creates(n) + [OpDelete(0)]
  }

  lemma DeleteOldestIsLegal(t: Ticks, n: nat)
    ensures Legal(t, DeleteOldest(n))
  {
    var ops := DeleteOldest(n);
    forall i | 0 <= i < |ops| && ops[i].OpCreate? ensures !Has(After(t, ops[..i]).entries, ops[i].id) {
      assert ops[..i] == Creates(i);
      CreatesList(t, i);
      HasNone(After(t, Creates(i)).entries, i);
    }
  }

  lemma DeleteOldestLeaves(t: Ticks, n: nat)
    requires n > 0
    ensures var f := After(t, DeleteOldest(n));
            |f.entries| == n - 1 && (f.running <==> (n - 1) % 0x1_0000 != 0)
    ensures NoWrap(t, DeleteOldest(n)) ==> n == 1 || (n - 1) % 0x1_0000 != 0
  {
    var ops := DeleteOldest(n);
    assert ops[..n] == Creates(n) && ops[n] == OpDelete(0);
    CreatesList(t, n);
    WithoutLast(After(t, Creates(n)).entries, 0);
    if NoWrap(t, ops) {
      assert NoWrapAt(After(t, ops[..n]), 0);
    }
  }

  /** With 65537 live buttons the deletion of one stops the timer: the 65536 left are ticked no more. */
  lemma TimerStopsTooEarly(t: Ticks, level: nat -> bool)
    ensures var ops := DeleteOldest(0x1_0001);
            var f := After(t, ops);
            && Legal(t, ops) && !NoWrap(t, ops)
            && |f.entries| == 0x1_0000 && !f.running
            && Apply(t, f, OpTick(level)) == f
  {
    hide DeleteOldest, Legal, NoWrap;
    DeleteOldestIsLegal(t, 0x1_0001);
    DeleteOldestLeaves(t, 0x1_0001);
  }
}
