/**
 * The observer registry is a std::set of observer pointers, so it holds each observer once and
 * is walked in increasing pointer order. An observer is identified here by its address.
 */
module Observers {
  import opened AudioControl

  type ObserverId = nat

  /** One call of an observer's OnCollectionChanged(event, pnpId). */
  datatype Notification = Notification(observer: ObserverId, event: DeviceCollectionEvent, pnpId: string)

  /** `m` is the smallest observer of `s`. */
  predicate IsLeast(s: set<ObserverId>, m: ObserverId)
  {
    m in s && forall x :: x in s ==> m <= x
  }

  /** The smallest observer of a non-empty set. */
  ghost function Least(s: set<ObserverId>): (m: ObserverId)
    requires s != {}
    ensures IsLeast(s, m)
    decreases s
  {
    var y :| y in s;
    if s == {y} then y
    else
      var r := Least(s - {y});
      var m := if y < r then y else r;
      assert forall x :: x in s ==> x == y || x in s - {y};
      m
  }

  /** The observers in the order a std::set of pointers enumerates them. */
  ghost function Ascending(s: set<ObserverId>): (r: seq<ObserverId>)
    ensures forall x :: x in r <==> x in s
    ensures forall i, j :: 0 <= i < j < |r| ==> r[i] < r[j]
    decreases s
  {
    if s == {} then []
    else
      var m := Least(s);
      var rest := Ascending(s - {m});
      assert forall x :: x in rest ==> m < x;
      [m] + rest
  }

  /** The smallest observer comes first. */
  lemma AscendingFirst(s: set<ObserverId>, m: ObserverId)
    requires IsLeast(s, m)
    ensures Ascending(s) == [m] + Ascending(s - {m})
  {
    assert Least(s) == m;
  }

  /** The calls made to the observers of `order`, one each, in that order. */
  function Calls(order: seq<ObserverId>, event: DeviceCollectionEvent, pnpId: string): seq<Notification>
  {
    if |order| == 0 then [] else [Notification(order[0], event, pnpId)] + Calls(order[1..], event, pnpId)
  }

  /** The i-th call goes to the i-th observer of the order. */
  lemma {:induction false} CallsAt(order: seq<ObserverId>, event: DeviceCollectionEvent, pnpId: string)
    ensures |Calls(order, event, pnpId)| == |order|
    ensures forall i :: 0 <= i < |order| ==> Calls(order, event, pnpId)[i] == Notification(order[i], event, pnpId)
  {
    if |order| > 0 {
      CallsAt(order[1..], event, pnpId);
    }
  }

  /** The calls NotifyObservers(event, pnpId) makes: each observer once, in ascending order. */
  ghost function Broadcast(s: set<ObserverId>, event: DeviceCollectionEvent, pnpId: string): seq<Notification>
  {
    Calls(Ascending(s), event, pnpId)
  }

  /** One broadcast per id, in the order of ids. */
  ghost function BroadcastEach(s: set<ObserverId>, event: DeviceCollectionEvent, ids: seq<string>): seq<Notification>
  {
    if |ids| == 0 then []
    else BroadcastEach(s, event, ids[..|ids| - 1]) + Broadcast(s, event, ids[|ids| - 1])
  }

  /** Each registered observer hears a broadcast exactly once, and nobody else hears it. */
  lemma BroadcastReachesEachObserverOnce(s: set<ObserverId>, event: DeviceCollectionEvent, pnpId: string)
    ensures forall n :: n in Broadcast(s, event, pnpId) ==> n.observer in s && n.event == event && n.pnpId == pnpId
    ensures forall o :: o in s ==> exists i :: 0 <= i < |Broadcast(s, event, pnpId)| && Broadcast(s, event, pnpId)[i].observer == o
    ensures forall i, j :: 0 <= i < j < |Broadcast(s, event, pnpId)| ==>
      Broadcast(s, event, pnpId)[i].observer < Broadcast(s, event, pnpId)[j].observer
  {
    var order := Ascending(s);
    CallsAt(order, event, pnpId);
    forall o | o in s
      ensures exists i :: 0 <= i < |Broadcast(s, event, pnpId)| && Broadcast(s, event, pnpId)[i].observer == o
    {
      var i :| 0 <= i < |order| && order[i] == o;
      assert Broadcast(s, event, pnpId)[i].observer == o;
    }
  }

  /** A broadcast starts with the smallest observer, followed by the broadcast to the others. */
  lemma BroadcastFirst(s: set<ObserverId>, m: ObserverId, event: DeviceCollectionEvent, pnpId: string)
    requires IsLeast(s, m)
    ensures Broadcast(s, event, pnpId) == [Notification(m, event, pnpId)] + Broadcast(s - {m}, event, pnpId)
  {
    AscendingFirst(s, m);
    assert ([m] + Ascending(s - {m}))[1..] == Ascending(s - {m});
  }

  /** Broadcasting for one more id appends that id's broadcast. */
  lemma BroadcastEachSnoc(s: set<ObserverId>, event: DeviceCollectionEvent, ids: seq<string>, i: nat)
    requires i < |ids|
    ensures BroadcastEach(s, event, ids[..i + 1]) == BroadcastEach(s, event, ids[..i]) + Broadcast(s, event, ids[i])
  {
    assert ids[..i + 1][..i] == ids[..i];
  }

  /** Recording calls in two steps is recording them in one. */
  lemma RecordInTwoSteps(log: seq<Notification>, first: seq<Notification>, rest: seq<Notification>)
    ensures log + (first + rest) == (log + first) + rest
  {
  }
}
