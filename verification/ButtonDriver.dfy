/** The button driver as it runs: nodes updated in place, a singly linked list changed through a
    pointer to a link, and a timer flag (components/button/iot_button.c). */
module ButtonDriver {
  import opened Button
  import opened ButtonCalls
  import opened ButtonFleet
  import opened Common

  datatype Err = Ok | InvalidArg

  class ButtonDev {
    var ticks: nat
    var repeat: nat
    var event: Event
    var state: nat
    var debounceCnt: nat
    const activeLevel: bool
    var buttonLevel: bool
    var cb: set<Event>
    var next: ButtonDev?
    /** The callbacks run so far with what they found, and the events raised whether or not they have one. */
    ghost var calls: seq<Call>
    ghost var raised: seq<Event>

    ghost function Abs(): Button
      reads this
    {
      Button(Debouncer(buttonLevel, debounceCnt), Machine(state, ticks, repeat, event), activeLevel)
    }

    constructor (active: bool)
      ensures Abs() == Created(active) && raised == [] && calls == [] && cb == {} && next == null
    {
      ticks, repeat, event, state, debounceCnt := 0, 0, NonePress, 0, 0;
      activeLevel, buttonLevel, cb, next := active, !active, {}, null;
      calls, raised := [], [];
    }

    /** `present` is whether the callback passed is not NULL; registering NULL unregisters. */
    method RegisterCb(ev: Event, present: bool) returns (err: Err)
      modifies this`cb
      ensures err == if ev == NonePress then InvalidArg else Ok
      ensures cb == if ev == NonePress then old(cb) else if present then old(cb) + {ev} else old(cb) - {ev}
    {
      if ev == NonePress {
        return InvalidArg;
      }
      cb := if present then cb + {ev} else cb - {ev};
      return Ok;
    }

    method UnregisterCb(ev: Event) returns (err: Err)
      modifies this`cb
      ensures err == if ev == NonePress then InvalidArg else Ok
      ensures cb == if ev == NonePress then old(cb) else old(cb) - {ev}
    {
      if ev == NonePress {
        return InvalidArg;
      }
      cb := cb - {ev};
      return Ok;
    }

    /** Runs the callback of ev, if it has one; it finds the fields as they are at this moment. */
    method CallEventCb(ev: Event)
      modifies this`calls, this`raised
      ensures raised == old(raised) + [ev]
      ensures calls == old(calls) + if ev in cb then [Call(ev, event, repeat)] else []
    {
      raised := raised + [ev];
      if ev in cb {
        calls := calls + [Call(ev, event, repeat)];
      }
    }

    /** One tick: the node becomes what the handler function says, raises its events, and runs exactly the
        registered callbacks among them, each finding what CallsOf says it reads. */
    method Handler(t: Ticks, reading: bool)
      modifies this`ticks, this`repeat, this`event, this`state, this`debounceCnt, this`buttonLevel,
               this`calls, this`raised
      ensures Abs() == Handle(t, old(Abs()), reading).button
      ensures raised == old(raised) + Handle(t, old(Abs()), reading).events
      ensures calls == old(calls) + CallsOf(Handle(t, old(Abs()), reading).events, old(repeat), cb)
    {
      if state > 0 {
        ticks := (ticks + 1) % 0x1_0000;
      }
      Debounce(t, reading);
      RunSwitch(t);
    }

    /** The case of a released button that waits for another press. */
    method RunGap(t: Ticks)
      requires state == 2
      modifies this`ticks, this`repeat, this`event, this`state, this`calls, this`raised
      ensures Abs().machine == Switch(t, old(Abs()).machine, old(Abs()).Pressed()).machine
      ensures raised == old(raised) + Switch(t, old(Abs()).machine, old(Abs()).Pressed()).events
      ensures calls == old(calls) + CallsOf(Switch(t, old(Abs()).machine, old(Abs()).Pressed()).events, old(repeat), cb)
    {
      hide CallsOf;
      CallsOfTick(Switch(t, Abs().machine, Abs().Pressed()).events, repeat, cb);
      if buttonLevel == activeLevel {
        event := PressDown;
        CallEventCb(PressDown);
        repeat := (repeat + 1) % 0x100;
        CallEventCb(PressRepeat);
        ticks := 0;
        state := 3;
      } else if ticks > t.short {
        if repeat == 1 {
          event := SingleClick;
          CallEventCb(SingleClick);
        } else if repeat == 2 {
          event := DoubleClick;
          CallEventCb(DoubleClick);
        }
        state := 0;
      }
    }

    method RunSwitch(t: Ticks)
      modifies this`ticks, this`repeat, this`event, this`state, this`calls, this`raised
      ensures Abs().machine == Switch(t, old(Abs()).machine, old(Abs()).Pressed()).machine
      ensures raised == old(raised) + Switch(t, old(Abs()).machine, old(Abs()).Pressed()).events
      ensures calls == old(calls) + CallsOf(Switch(t, old(Abs()).machine, old(Abs()).Pressed()).events, old(repeat), cb)
    {
      hide CallsOf;
      CallsOfTick(Switch(t, Abs().machine, Abs().Pressed()).events, repeat, cb);
      match state {
        case 0 =>
          if buttonLevel == activeLevel {
            event := PressDown;
            CallEventCb(PressDown);
            ticks := 0;
            repeat := 1;
            state := 1;
          } else {
            event := NonePress;
          }
        case 1 =>
          if buttonLevel != activeLevel {
            event := PressUp;
            CallEventCb(PressUp);
            ticks := 0;
            state := 2;
          } else if ticks > t.long {
            event := LongPressStart;
            CallEventCb(LongPressStart);
            state := 5;
          }
        case 2 =>
          RunGap(t);
        case 3 =>
          if buttonLevel != activeLevel {
            event := PressUp;
            CallEventCb(PressUp);
            if ticks < t.short {
              ticks := 0;
              state := 2;
            } else {
              state := 0;
            }
          }
        case 5 =>
          if buttonLevel == activeLevel {
            event := LongPressHold;
            CallEventCb(LongPressHold);
          } else {
            event := PressUp;
            CallEventCb(PressUp);
            state := 0;
          }
        case _ =>
      }
    }

    method Debounce(t: Ticks, reading: bool)
      modifies this`debounceCnt, this`buttonLevel
      ensures Debouncer(buttonLevel, debounceCnt)
           == Sample(t.debounce, Debouncer(old(buttonLevel), old(debounceCnt)), reading)
    {
      if reading != buttonLevel {
        debounceCnt := (debounceCnt + 1) % 8;
        if debounceCnt >= t.debounce {
          buttonLevel := reading;
          debounceCnt := 0;
        }
      } else {
        debounceCnt := 0;
      }
    }
  }

  /** head leads through the nodes of l, in order, to null. */
  ghost predicate Chain(head: ButtonDev?, l: seq<ButtonDev>)
    reads l
  {
    && head == (if l == [] then null else l[0])
    && (forall i {:trigger l[i].next} :: 0 <= i < |l| ==> l[i].next == if i == |l| - 1 then null else l[i + 1])
    && (forall i, j :: 0 <= i < j < |l| ==> l[i] != l[j])
  }

  ghost function Entries(l: seq<ButtonDev>): (es: seq<Entry<ButtonDev>>)
    reads l
    ensures |es| == |l|
    ensures forall i :: 0 <= i < |l| ==> es[i] == Entry(l[i], l[i].Abs(), l[i].raised)
  {
    seq(|l|, i requires 0 <= i < |l| reads l => Entry(l[i], l[i].Abs(), l[i].raised))
  }

  lemma ChainFront(btn: ButtonDev, l: seq<ButtonDev>)
    requires Chain(btn.next, l) && btn !in l
    ensures Chain(btn, [btn] + l)
  {
    var all := [btn] + l;
    forall i {:trigger all[i].next} | 0 <= i < |all|
      ensures all[i].next == if i == |all| - 1 then null else all[i + 1]
    {
      if i > 0 {
        assert all[i] == l[i - 1] && l[i - 1].next == all[i].next;
      }
    }
  }

  lemma EntriesFront(btn: ButtonDev, l: seq<ButtonDev>)
    ensures Entries([btn] + l) == [Entry(btn, btn.Abs(), btn.raised)] + Entries(l)
  {
    assert ([btn] + l)[1..] == l;
  }

  lemma ChainDistinct(head: ButtonDev?, l: seq<ButtonDev>)
    requires Chain(head, l)
    ensures forall i, j :: 0 <= i < j < |l| ==> l[i] != l[j]
  {
  }

  /** Entries do not depend on the links. */
  twostate lemma EntriesKept(l: seq<ButtonDev>)
    requires forall n :: n in l ==> old(n.Abs()) == n.Abs() && old(n.raised) == n.raised
    ensures old(Entries(l)) == Entries(l)
  {
  }

  lemma ReadingsOf(es: seq<Entry<ButtonDev>>, level: ButtonDev -> bool)
    ensures |Readings(es, level)| == |es|
    ensures forall i :: 0 <= i < |es| ==> Readings(es, level)[i] == level(es[i].id)
  {
  }

  lemma WithoutFront(e: Entry<ButtonDev>, es: seq<Entry<ButtonDev>>, btn: ButtonDev)
    ensures WithoutId([e] + es, btn) == if e.id == btn then WithoutId(es, btn) else [e] + WithoutId(es, btn)
  {
    assert ([e] + es)[1..] == es;
  }

  lemma {:induction false} RemoveAbsent(l: seq<ButtonDev>, btn: ButtonDev)
    requires btn !in l
    ensures Without(l, btn) == l
  {
    if l != [] {
      RemoveAbsent(l[1..], btn);
    }
  }

  lemma {:induction false} RemoveAt(l: seq<ButtonDev>, i: nat)
    requires i < |l| && forall j, k :: 0 <= j < k < |l| ==> l[j] != l[k]
    ensures Without(l, l[i]) == l[..i] + l[i + 1..]
  {
    if i == 0 {
      RemoveAbsent(l[1..], l[0]);
    } else {
      RemoveAt(l[1..], i - 1);
      assert l[..i] + l[i + 1..] == [l[0]] + (l[1..][..i - 1] + l[1..][i..]);
    }
  }

  lemma {:induction false} EntriesWithout(l: seq<ButtonDev>, btn: ButtonDev)
    ensures Entries(Without(l, btn)) == WithoutId(Entries(l), btn)
  {
    hide Entries;
    if l != [] {
      EntriesWithout(l[1..], btn);
      assert l == [l[0]] + l[1..];
      EntriesFront(l[0], l[1..]);
      EntriesFront(l[0], Without(l[1..], btn));
      WithoutFront(Entry(l[0], l[0].Abs(), l[0].raised), Entries(l[1..]), btn);
    }
  }

  class Driver {
    var head: ButtonDev?
    var timerRunning: bool
    ghost var list: seq<ButtonDev>

    ghost predicate Valid()
      reads this, list
    {
      Chain(head, list)
    }

    ghost function Abs(): Fleet<ButtonDev>
      reads this, list
    {
      Fleet(Entries(list), timerRunning)
    }

    constructor ()
      ensures Valid() && list == [] && Abs() == Fleet([], false)
    {
      head, timerRunning, list := null, false, [];
    }

    method CreateCom(active: bool) returns (btn: ButtonDev)
      requires Valid()
      modifies this
      ensures Valid() && fresh(btn) && list == [btn] + old(list)
      ensures Abs() == Create(old(Abs()), btn, active)
    {
      hide Entries, Chain;
      ghost var before, es := list, Entries(list);
      btn := new ButtonDev(active);
      assert Entries(before) == es;
      btn.next := head;
      head := btn;
      list := [btn] + before;
      if !timerRunning {
        timerRunning := true;
      }
      assert Entries(before) == es;
      ChainFront(btn, before);
      EntriesFront(btn, before);
    }

    /** Handles one node, whatever its place, and leaves the others alone. */
    method TickNode(t: Ticks, node: ButtonDev, reading: bool, ghost i: nat)
      requires Valid() && i < |list| && node == list[i]
      modifies node`ticks, node`repeat, node`event, node`state, node`debounceCnt, node`buttonLevel,
               node`calls, node`raised
      ensures Valid()
      ensures Entries(list) == old(Entries(list))[i := TickOne(t, old(Entries(list))[i], reading)]
    {
      ghost var es := Entries(list);
      node.Handler(t, reading);
      assert forall j :: 0 <= j < |list| && j != i ==> Entries(list)[j] == es[j];
    }

    /** The sweep of one timer tick, in list order; `level` is what the hardware reads for each node. */
    method Sweep(t: Ticks, level: ButtonDev -> bool)
      requires Valid() && timerRunning
      modifies list
      ensures Valid() && Abs() == Apply(t, old(Abs()), OpTick(level))
    {
      hide Entries, TickOne, TickAll, Readings;
      ghost var es := Entries(list);
      var target := head;
      ghost var i := 0;
      while target != null
        invariant 0 <= i <= |list| && Valid()
        invariant target == if i == |list| then null else list[i]
        invariant forall j :: 0 <= j < i ==> Entries(list)[j] == TickOne(t, es[j], level(list[j]))
        invariant forall j :: i <= j < |list| ==> Entries(list)[j] == es[j]
        decreases |list| - i
      {
        TickNode(t, target, level(target), i);
        target := target.next;
        i := i + 1;
      }
      ReadingsOf(es, level);
      assert Entries(list) == TickAll(t, es, Readings(es, level));
    }

    /** Unlinks btn wherever it stands, keeps every other node and the order, and stops the timer when
        the 16-bit count of the nodes left is 0. */
    method DeleteCom(btn: ButtonDev?) returns (err: Err)
      requires Valid()
      modifies this, list
      ensures Valid()
      ensures btn == null ==> err == InvalidArg && list == old(list) && Abs() == old(Abs())
      ensures btn != null ==>
                && err == Ok
                && list == Without(old(list), btn as ButtonDev)
                && Abs() == Delete(old(Abs()), btn as ButtonDev)
    {
      if btn == null {
        return InvalidArg;
      }
      hide Entries, Chain, Without, WithoutId;
      ghost var before, es := list, Entries(list);
      Unlink(btn);
      EntriesWithout(before, btn);
      ghost var left := WithoutId(es, btn);
      assert Entries(list) == left && |left| == |list|;
      var number := Count();
      if number == 0 && timerRunning {
        timerRunning := false;
      }
      return Ok;
    }

    /** The link that the source's pointer to a pointer stands for: of a node, or of the head. */
    ghost predicate LinkAt(prev: ButtonDev?, i: nat)
      reads this
    {
      i <= |list| && prev == if i == 0 then null else list[i - 1]
    }

    /** Stores the successor of node i in the link that leads to it. */
    method SkipNode(prev: ButtonDev?, ghost i: nat)
      requires Valid() && LinkAt(prev, i) && i < |list|
      modifies this`head, this`list, list`next
      ensures Valid() && list == old(list)[..i] + old(list)[i + 1..]
    {
      if prev == null {
        head := head.next;
      } else {
        prev.next := prev.next.next;
      }
      list := list[..i] + list[i + 1..];
    }

    /** The link at place i leads to node i, or to null at the end. */
    lemma LinkLeads(prev: ButtonDev?, i: nat)
      requires Valid() && LinkAt(prev, i)
      ensures (if prev == null then head else prev.next) == if i < |list| then list[i] else null
    {
    }

    method Unlink(btn: ButtonDev)
      requires Valid()
      modifies this`head, this`list, list`next
      ensures Valid() && list == Without(old(list), btn)
      ensures Entries(old(list)) == old(Entries(list))
    {
      hide Entries, Chain, Without;
      var prev: ButtonDev? := null;
      ghost var i := 0;
      ghost var found := false;
      LinkLeads(prev, i);
      while (if prev == null then head else prev.next) != null
        invariant Valid() && LinkAt(prev, i)
        invariant (if prev == null then head else prev.next) == if i < |list| then list[i] else null
        invariant btn !in list[..i]
        invariant if found then btn !in list && list == Without(old(list), btn) else list == old(list)
        invariant forall n :: n in list ==> n in old(list)
        decreases |list| - i
      {
        var entry := if prev == null then head else prev.next;
        if entry == btn {
          if !found {
            ChainDistinct(head, list);
            RemoveAt(list, i);
          }
          SkipNode(prev, i);
          found := true;
        } else {
          prev := entry;
          i := i + 1;
        }
        LinkLeads(prev, i);
      }
      assert list[..i] == list;
      if !found {
        RemoveAbsent(list, btn);
      }
      EntriesKept(old(list));
    }

    method Count() returns (number: nat)
      requires Valid()
      ensures number == |list| % 0x1_0000
    {
      number := 0;
      var target := head;
      ghost var i := 0;
      while target != null
        invariant 0 <= i <= |list| && number == i % 0x1_0000
        invariant target == if i == |list| then null else list[i]
        decreases |list| - i
      {
        target := target.next;
        number := (number + 1) % 0x1_0000;
        i := i + 1;
      }
    }
  }
}
