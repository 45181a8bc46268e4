/** All the buttons of the device and the one timer that ticks them: creation, deletion and the
    sweep, on values. Handles are any type with equality. */
module ButtonFleet {
  import opened Button
  import opened Common

  /** A button in the list, with every event it has raised since it was created. */
  datatype Entry<Id> = Entry(id: Id, button: Button, raised: seq<Event>)

  /** The list in its order, and whether the periodic timer runs. */
  datatype Fleet<Id> = Fleet(entries: seq<Entry<Id>>, running: bool)

  ghost predicate Has<Id>(es: seq<Entry<Id>>, id: Id) {
    exists i :: 0 <= i < |es| && es[i].id == id
  }

  ghost predicate Distinct<Id>(es: seq<Entry<Id>>) {
    forall i, j :: 0 <= i < j < |es| ==> es[i].id != es[j].id
  }

  /** The list without the entries of a handle. */
  function WithoutId<Id(==)>(es: seq<Entry<Id>>, id: Id): seq<Entry<Id>> {
    if es == [] then []
    else if es[0].id == id then WithoutId(es[1..], id)
    else [es[0]] + WithoutId(es[1..], id)
  }

  /** A new button goes to the head of the list, and the timer starts if it does not run. */
  function Create<Id>(f: Fleet<Id>, id: Id, active: bool): Fleet<Id> {
    Fleet([Entry(id, Created(active), [])] + f.entries, true)
  }

  /** The buttons left are counted in 16 bits; at a count of 0 the timer stops. */
  function Delete<Id(==)>(f: Fleet<Id>, id: Id): Fleet<Id> {
    var left := WithoutId(f.entries, id);
    Fleet(left, f.running && |left| % 0x1_0000 != 0)
  }

  function TickOne<Id>(t: Ticks, e: Entry<Id>, reading: bool): Entry<Id> {
    var h := Handle(t, e.button, reading);
    Entry(e.id, h.button, e.raised + h.events)
  }

  function TickAll<Id>(t: Ticks, es: seq<Entry<Id>>, readings: seq<bool>): (r: seq<Entry<Id>>)
    requires |readings| == |es|
    ensures |r| == |es|
    ensures forall i :: 0 <= i < |es| ==> r[i] == TickOne(t, es[i], readings[i])
  {
    if es == [] then []
    else [TickOne(t, es[0], readings[0])] + TickAll(t, es[1..], readings[1..])
  }

  // ---------- Runs ----------

  /** One thing that can happen; a tick carries the level each handle's input would read. */
  datatype Op<!Id> =
    | OpCreate(id: Id, active: bool)
    | OpDelete(id: Id)
    | OpTick(level: Id -> bool)

  function Readings<Id>(es: seq<Entry<Id>>, level: Id -> bool): seq<bool> {
    seq(|es|, i requires 0 <= i < |es| => level(es[i].id))
  }

  function Apply<Id(==)>(t: Ticks, f: Fleet<Id>, op: Op<Id>): Fleet<Id> {
    match op
    case OpCreate(id, active) => Create(f, id, active)
    case OpDelete(id) => Delete(f, id)
    case OpTick(level) =>
      if f.running then f.(entries := TickAll(t, f.entries, Readings(f.entries, level))) else f
  }

  /** The fleet after a run from power-up; the last operation is the last element. */
  function After<Id(==)>(t: Ticks, ops: seq<Op<Id>>): Fleet<Id> {
    if ops == [] then Fleet([], false)
    else Apply(t, After(t, ops[..|ops| - 1]), ops[|ops| - 1])
  }

  /** What callers must do: a created handle is a new one. */
  ghost predicate Legal<Id>(t: Ticks, ops: seq<Op<Id>>) {
    forall i :: 0 <= i < |ops| && ops[i].OpCreate? ==> !Has(After(t, ops[..i]).entries, ops[i].id)
  }

  /** No deletion leaves a positive multiple of 65536 buttons. */
  ghost predicate NoWrap<Id>(t: Ticks, ops: seq<Op<Id>>) {
    forall i :: 0 <= i < |ops| && ops[i].OpDelete? ==> NoWrapAt(After(t, ops[..i]), ops[i].id)
  }

  predicate NoWrapAt<Id(==)>(f: Fleet<Id>, id: Id) {
    var left := |WithoutId(f.entries, id)|;
    left == 0 || left % 0x1_0000 != 0
  }

  ghost predicate TimerRight<Id>(f: Fleet<Id>) {
    f.running <==> f.entries != []
  }

  lemma {:induction false} WithoutIsShorter<Id>(es: seq<Entry<Id>>, id: Id)
    ensures |WithoutId(es, id)| <= |es|
  {
    if es != [] {
      WithoutIsShorter(es[1..], id);
    }
  }

  /** The timer runs exactly while there are buttons, after every prefix of a run, if and only if no
      deletion in the run leaves a positive multiple of 65536 buttons. */
  lemma TimerRightIffNoWrap<Id>(t: Ticks, ops: seq<Op<Id>>)
    ensures (forall n :: 0 <= n <= |ops| ==> TimerRight(After(t, ops[..n]))) <==> NoWrap(t, ops)
  {
    if NoWrap(t, ops) {
      forall n | 0 <= n <= |ops| ensures TimerRight(After(t, ops[..n])) {
        NoWrapKeepsTimer(t, ops, n);
      }
    }
    if forall n :: 0 <= n <= |ops| ==> TimerRight(After(t, ops[..n])) {
      forall i | 0 <= i < |ops| && ops[i].OpDelete? ensures NoWrapAt(After(t, ops[..i]), ops[i].id) {
        assert TimerRight(After(t, ops[..i + 1]));
        assert ops[..i + 1][..i] == ops[..i];
      }
    }
  }

  lemma {:induction false} NoWrapKeepsTimer<Id>(t: Ticks, ops: seq<Op<Id>>, n: nat)
    requires NoWrap(t, ops) && n <= |ops|
    ensures TimerRight(After(t, ops[..n]))
    decreases n
  {
    if n > 0 {
      assert ops[..n][..n - 1] == ops[..n - 1];
      NoWrapKeepsTimer(t, ops, n - 1);
      var f := After(t, ops[..n - 1]);
      if ops[n - 1].OpDelete? {
        WithoutIsShorter(f.entries, ops[n - 1].id);
      }
    }
  }

  lemma {:induction false} WithoutListed<Id>(es: seq<Entry<Id>>, id: Id)
    requires Has(es, id)
    ensures |WithoutId(es, id)| < |es|
  {
    if es[0].id == id {
      WithoutIsShorter(es[1..], id);
    } else {
      var i :| 0 <= i < |es| && es[i].id == id;
      assert es[1..][i - 1].id == id;
      WithoutListed(es[1..], id);
    }
  }

  /** The deletion of a listed button that wraps the count needs 65537 buttons in the list. */
  lemma WrapNeedsMany<Id>(f: Fleet<Id>, id: Id)
    requires Has(f.entries, id) && !NoWrapAt(f, id)
    ensures |f.entries| > 0x1_0000
  {
    WithoutListed(f.entries, id);
  }

  // ---------- The order of the list ----------

  function Ids<Id>(es: seq<Entry<Id>>): (ids: seq<Id>)
    ensures |ids| == |es| && forall i :: 0 <= i < |es| ==> ids[i] == es[i].id
  {
    seq(|es|, i requires 0 <= i < |es| => es[i].id)
  }

  /** The handles created and not deleted since, the latest first. */
  function Order<Id(==)>(ops: seq<Op<Id>>): seq<Id> {
    if ops == [] then []
    else
      var before := Order(ops[..|ops| - 1]);
      match ops[|ops| - 1]
      case OpCreate(id, _) => [id] + before
      case OpDelete(id) => Without(before, id)
      case OpTick(_) => before
  }

  lemma {:induction false} IdsWithout<Id>(es: seq<Entry<Id>>, id: Id)
    ensures Ids(WithoutId(es, id)) == Without(Ids(es), id)
  {
    if es != [] {
      IdsWithout(es[1..], id);
      assert Ids(es)[1..] == Ids(es[1..]);
      if es[0].id != id {
        assert Ids([es[0]] + WithoutId(es[1..], id)) == [es[0].id] + Ids(WithoutId(es[1..], id));
      }
    }
  }

  /** Over every run a tick visits the buttons in the order of their creation, the latest first. */
  lemma {:induction false} LatestFirst<Id>(t: Ticks, ops: seq<Op<Id>>)
    ensures Ids(After(t, ops).entries) == Order(ops)
  {
    if ops != [] {
      var before := ops[..|ops| - 1];
      LatestFirst(t, before);
      match ops[|ops| - 1]
      case OpCreate(id, active) =>
      case OpDelete(id) => IdsWithout(After(t, before).entries, id);
      case OpTick(level) =>
    }
  }

  /** Whether the timer runs: a creation has it running, a deletion stops it when the 16-bit count of the buttons left
      is 0, and nothing else changes it. */
  predicate RunningBy<Id(==)>(ops: seq<Op<Id>>) {
    ops != []
    && match ops[|ops| - 1]
       case OpCreate(_, _) => true
       case OpDelete(_) => RunningBy(ops[..|ops| - 1]) && |Order(ops)| % 0x1_0000 != 0
       case OpTick(_) => RunningBy(ops[..|ops| - 1])
  }

  lemma {:induction false} TimerIsTold<Id>(t: Ticks, ops: seq<Op<Id>>)
    ensures After(t, ops).running <==> RunningBy(ops)
  {
    if ops != [] {
      TimerIsTold(t, ops[..|ops| - 1]);
      LatestFirst(t, ops);
    }
  }

  // ---------- Each button on its own ----------

  /** The active level a handle was last created with, and the levels it would have read at the ticks
      since, as long as the timer ran: a function of the operations alone. */
  datatype Life = Unborn | Born(active: bool, readings: seq<bool>)

  function LifeOf<Id(==)>(ops: seq<Op<Id>>, id: Id): Life {
    if ops == [] then Unborn
    else
      var before := LifeOf(ops[..|ops| - 1], id);
      match ops[|ops| - 1]
      case OpCreate(i, active) => if i == id then Born(active, []) else before
      case OpDelete(i) => if i == id then Unborn else before
      case OpTick(level) =>
        if before.Born? && RunningBy(ops[..|ops| - 1]) then Born(before.active, before.readings + [level(id)])
        else before
  }

  lemma {:induction false} WithoutHas<Id>(es: seq<Entry<Id>>, id: Id)
    ensures forall j :: 0 <= j < |WithoutId(es, id)| ==> WithoutId(es, id)[j].id != id && WithoutId(es, id)[j] in es
    ensures Distinct(es) ==> Distinct(WithoutId(es, id))
    ensures forall e :: e in es && e.id != id ==> e in WithoutId(es, id)
  {
    if es != [] {
      WithoutHas(es[1..], id);
      var rest := WithoutId(es[1..], id);
      if Distinct(es) {
        forall i, j | 0 <= i < j < |es[1..]| ensures es[1..][i].id != es[1..][j].id {
          assert es[i + 1].id != es[j + 1].id;
        }
        if es[0].id != id {
          var all := [es[0]] + rest;
          forall i, j | 0 <= i < j < |all| ensures all[i].id != all[j].id {
            if i == 0 {
              assert rest[j - 1] in es[1..];
              var k :| 0 <= k < |es[1..]| && es[1..][k] == rest[j - 1];
              assert es[k + 1] == rest[j - 1];
            } else {
              assert rest[i - 1].id != rest[j - 1].id;
            }
          }
        }
      }
    }
  }

  /** An entry is what its own life alone makes of a new button. */
  ghost predicate OwnLife<Id>(t: Ticks, e: Entry<Id>, life: Life) {
    && life.Born?
    && var h := HandleAll(t, Created(life.active), life.readings);
       e.button == h.button && e.raised == h.events
  }

  lemma TickKeepsOwnLife<Id>(t: Ticks, e: Entry<Id>, life: Life, reading: bool)
    requires OwnLife(t, e, life)
    ensures OwnLife(t, TickOne(t, e, reading), Born(life.active, life.readings + [reading]))
  {
    HandleAllSnoc(t, Created(life.active), life.readings, reading);
  }

  /** The entries of a run, one by one. */
  ghost predicate Isolated<Id>(t: Ticks, ops: seq<Op<Id>>) {
    var es := After(t, ops).entries;
    && Distinct(es)
    && (forall i :: 0 <= i < |es| ==> OwnLife(t, es[i], LifeOf(ops, es[i].id)))
  }

  lemma LegalPrefix<Id>(t: Ticks, ops: seq<Op<Id>>)
    requires ops != [] && Legal(t, ops)
    ensures Legal(t, ops[..|ops| - 1])
  {
    var before := ops[..|ops| - 1];
    forall i | 0 <= i < |before| ensures before[..i] == ops[..i] && before[i] == ops[i] {
    }
  }

  /** Isolation: in every run, whatever happens to the other buttons, each button in the list is in the
      state, and has raised the events, that its own readings since its creation determine. */
  lemma {:induction false} EachButtonAlone<Id>(t: Ticks, ops: seq<Op<Id>>)
    requires Legal(t, ops)
    ensures Isolated(t, ops)
    decreases |ops|
  {
    if ops != [] {
      var before, op := ops[..|ops| - 1], ops[|ops| - 1];
      LegalPrefix(t, ops);
      EachButtonAlone(t, before);
      match op
      case OpCreate(id, active) => AloneAfterCreate(t, ops);
      case OpDelete(id) => AloneAfterDelete(t, ops);
      case OpTick(level) => AloneAfterTick(t, ops);
    }
  }

  lemma AloneAfterCreate<Id>(t: Ticks, ops: seq<Op<Id>>)
    requires ops != [] && ops[|ops| - 1].OpCreate? && Legal(t, ops) && Isolated(t, ops[..|ops| - 1])
    ensures Isolated(t, ops)
  {
    var before, op := ops[..|ops| - 1], ops[|ops| - 1];
    var earlier := After(t, before).entries;
    var es := After(t, ops).entries;
    assert !Has(earlier, op.id);
    forall i | 0 <= i < |es| ensures OwnLife(t, es[i], LifeOf(ops, es[i].id)) {
      if i > 0 {
        assert es[i] == earlier[i - 1];
        assert es[i].id != op.id;
        assert LifeOf(ops, es[i].id) == LifeOf(before, es[i].id);
      }
    }
    forall i, j | 0 <= i < j < |es| ensures es[i].id != es[j].id {
      assert es[j] == earlier[j - 1];
      if i > 0 {
        assert es[i] == earlier[i - 1];
      }
    }
  }

  lemma AloneAfterDelete<Id>(t: Ticks, ops: seq<Op<Id>>)
    requires ops != [] && ops[|ops| - 1].OpDelete? && Isolated(t, ops[..|ops| - 1])
    ensures Isolated(t, ops)
  {
    var before, op := ops[..|ops| - 1], ops[|ops| - 1];
    var earlier := After(t, before).entries;
    var es := After(t, ops).entries;
    WithoutHas(earlier, op.id);
    forall i | 0 <= i < |es| ensures OwnLife(t, es[i], LifeOf(ops, es[i].id)) {
      var j :| 0 <= j < |earlier| && earlier[j] == es[i];
      assert LifeOf(ops, es[i].id) == LifeOf(before, es[i].id);
    }
  }

  lemma AloneAfterTick<Id>(t: Ticks, ops: seq<Op<Id>>)
    requires ops != [] && ops[|ops| - 1].OpTick? && Isolated(t, ops[..|ops| - 1])
    ensures Isolated(t, ops)
  {
    var before, op := ops[..|ops| - 1], ops[|ops| - 1];
    var f := After(t, before);
    var es := After(t, ops).entries;
    TimerIsTold(t, before);
    if f.running {
      forall i | 0 <= i < |es| ensures es[i].id == f.entries[i].id && OwnLife(t, es[i], LifeOf(ops, es[i].id)) {
        TickKeepsOwnLife(t, f.entries[i], LifeOf(before, f.entries[i].id), op.level(f.entries[i].id));
      }
    }
  }

  lemma CreateHas<Id>(f: Fleet<Id>, i: Id, active: bool, id: Id)
    ensures Has(Create(f, i, active).entries, id) <==> i == id || Has(f.entries, id)
  {
    var es := Create(f, i, active).entries;
    assert es[0].id == i;
    if k :| 0 <= k < |f.entries| && f.entries[k].id == id {
      assert es[k + 1].id == id;
    }
    if k :| 0 < k < |es| && es[k].id == id {
      assert f.entries[k - 1].id == id;
    }
  }

  lemma DeleteHas<Id>(f: Fleet<Id>, i: Id, id: Id)
    ensures Has(Delete(f, i).entries, id) <==> i != id && Has(f.entries, id)
  {
    var es := Delete(f, i).entries;
    WithoutHas(f.entries, i);
    if i != id {
      if k :| 0 <= k < |f.entries| && f.entries[k].id == id {
        assert f.entries[k] in es;
      }
    }
  }

  lemma TickHas<Id>(t: Ticks, f: Fleet<Id>, level: Id -> bool, id: Id)
    ensures Has(Apply(t, f, OpTick(level)).entries, id) <==> Has(f.entries, id)
  {
    var es := Apply(t, f, OpTick(level)).entries;
    assert forall k :: 0 <= k < |es| ==> es[k].id == f.entries[k].id;
  }

  /** A handle is in the list exactly when it has been created and not deleted since. */
  lemma {:induction false} ListedIffBorn<Id>(t: Ticks, ops: seq<Op<Id>>, id: Id)
    ensures Has(After(t, ops).entries, id) <==> LifeOf(ops, id).Born?
    decreases |ops|
  {
    hide Has, Create, Delete;
    if ops == [] {
      NoneHas<Id>(id);
    } else {
      var before, op := ops[..|ops| - 1], ops[|ops| - 1];
      ListedIffBorn(t, before, id);
      match op
      case OpCreate(i, active) => CreateHas(After(t, before), i, active, id);
      case OpDelete(i) => DeleteHas(After(t, before), i, id);
      case OpTick(level) => TickHas(t, After(t, before), level, id);
    }
  }

  lemma NoneHas<Id>(id: Id)
    ensures !Has([], id)
  {
  }
}
