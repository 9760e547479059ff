/** Subscribed events (src/bind_event.c) and the socket's filter and output (src/socketcan_raw.c). */
module BindEvent {
  import opened Words
  import opened Values
  import opened CanInfo
  import opened Subscriptions

  /** One afb_event_push: the event's name and the reported value. */
  datatype Pushed = Pushed(name: string, value: Json)

  class EventRegistry {
    /** bind_event_root: name to raw_info. */
    var events: map<string, CanBit>
    const subscribedCanids: array<UInt32>
    var nSubscribedCanid: nat
    /** What has been pushed to clients so far. */
    var pushed: seq<Pushed>

    constructor ()
      ensures Ready() && events == map[] && pushed == [] && fresh(subscribedCanids)
    {
      events, nSubscribedCanid, pushed := map[], 0, [];
      subscribedCanids := new UInt32[SUPPORT_CANID_MAX](_ => 0);
    }

    ghost predicate Owned()
      reads this`events, events.Values`mycanid
    {
      forall n :: n in events ==> events[n].mycanid != null
    }

    ghost predicate Ready()
      reads this`events, this`nSubscribedCanid, events.Values`mycanid
    {
      Owned() && subscribedCanids.Length == SUPPORT_CANID_MAX && nSubscribedCanid <= SUPPORT_CANID_MAX
    }

    /** Each event's CAN-ID. */
    ghost function Canids(): map<string, UInt32>
      requires Owned()
      reads this`events, events.Values`mycanid
    {
      map n | n in events :: events[n].mycanid.canid
    }

    /** The filled part of the array. */
    ghost function List(): seq<UInt32>
      requires nSubscribedCanid <= subscribedCanids.Length
      reads this, subscribedCanids
    {
      subscribedCanids[..nSubscribedCanid]
    }

    /** _addSubscribedCanid */
    method AddSubscribedCanid(entry: CanBit)
      requires Ready() && entry.mycanid != null
      modifies this`nSubscribedCanid, subscribedCanids
      ensures Ready()
      ensures List() == Collect(old(List()), entry.mycanid.canid)
    {
      var i := 0;
      while i < nSubscribedCanid
        invariant i <= nSubscribedCanid
        invariant forall k :: 0 <= k < i ==> subscribedCanids[k] != entry.mycanid.canid
      {
        if entry.mycanid.canid == subscribedCanids[i] {
          assert subscribedCanids[..nSubscribedCanid][i] == entry.mycanid.canid;
          return;
        }
        i := i + 1;
      }
      if SUPPORT_CANID_MAX <= nSubscribedCanid {
        return;
      }
      subscribedCanids[nSubscribedCanid] := entry.mycanid.canid;
      nSubscribedCanid := nSubscribedCanid + 1;
    }

    lemma CanidOf(name: string)
      requires Owned() && name in events
      ensures name in Canids() && Canids()[name] == events[name].mycanid.canid
    {
    }

    lemma CanidKeys()
      requires Owned()
      ensures Canids().Keys == events.Keys
    {
    }

    /** The memset of the list. */
    method ClearList()
      requires Ready()
      modifies this`nSubscribedCanid, subscribedCanids
      ensures Ready() && List() == []
    {
      forall i | 0 <= i < subscribedCanids.Length {
        subscribedCanids[i] := 0;
      }
      nSubscribedCanid := 0;
    }

    /** The walk visits one event. */
    method Visit(name: string, ghost canids: map<string, UInt32>, ghost done: set<string>)
      requires Ready() && name in events && canids == Canids() && done <= canids.Keys && Collected(List(), canids, done)
      modifies this`nSubscribedCanid, subscribedCanids
      ensures Ready() && Collected(List(), canids, done + {name})
    {
      hide Collect, Collected, Canids;
      CanidOf(name);
      CollectOne(List(), canids, done, name);
      AddSubscribedCanid(events[name]);
    }

    /** getSubscribedCanids: walk the events, in whatever order the tree has. */
    method GetSubscribedCanids() returns (n: nat)
      requires Ready()
      modifies this`nSubscribedCanid, subscribedCanids
      ensures Ready() && n == |List()| && Listing(Canids(), List())
    {
      hide Collect, Collected, Listing, Canids, List;
      ClearList();
      CanidKeys();
      ghost var canids, done := Canids(), {};
      CollectNone(canids);
      var todo := events.Keys;
      while todo != {}
        invariant Ready() && done <= canids.Keys && todo <= events.Keys
        invariant events.Keys == done + todo
        invariant Collected(List(), canids, done)
        decreases todo
      {
        var name :| name in todo;
        Visit(name, canids, done);
        todo, done := todo - {name}, done + {name};
      }
      assert done == canids.Keys;
      CollectedAll(List(), canids);
      ListLength();
      n := nSubscribedCanid;
    }

    lemma ListLength()
      requires Ready()
      ensures |List()| == nSubscribedCanid
    {
    }

    /** register_event: `made` is the daemon's answer. */
    method RegisterEvent(name: string, properties: map<string, CanBit>, made: bool) returns (ok: bool)
      requires name !in events
      modifies this`events
      ensures ok <==> name in properties && made
      ensures events == if ok then old(events)[name := properties[name]] else old(events)
    {
      if name !in properties {
        return false;
      }
      if !made {
        return false;
      }
      events := events[name := properties[name]];
      ok := true;
    }

    /** remove_event */
    method RemoveEvent(name: string) returns (r: int)
      modifies this`events
      ensures r == (if name in old(events) then 0 else 1) && events == old(events) - {name}
    {
      if name !in events {
        return 1;
      }
      events := events - {name};
      r := 0;
    }
  }

  class CanSocket {
    /** The filter installed on the socket, and the frames sent through it. */
    var filters: seq<Filter>
    var sent: seq<CanFrame>

    /** socketcan_open: one filter, which still lets CAN-ID 0x7FF through (`ClosedFilterPasses`). */
    constructor ()
      ensures filters == CLOSED && sent == []
    {
      filters, sent := CLOSED, [];
    }

    /** socketcan_update_filter: `ok` is the outcome of the system call. */
    method UpdateFilter(canidList: array<UInt32>, n: nat, ok: bool)
      requires n <= canidList.Length
      modifies this`filters
      ensures filters == if n > 0 && ok then FilterFor(canidList[..n]) else old(filters)
    {
      if n <= 0 {
        return;
      }
      var rfilter := new Filter[n](_ => Filter(0, 0));
      var i := 0;
      while i < n
        invariant i <= n && filters == old(filters)
        invariant forall k :: 0 <= k < i ==> rfilter[k] == Filter(canidList[k], CAN_SFF_MASK)
      {
        rfilter[i] := Filter(canidList[i], CAN_SFF_MASK);
        i := i + 1;
      }
      if ok {
        filters := rfilter[..];
        assert filters == FilterFor(canidList[..n]);
      }
    }

    /** socketcan_send */
    method Send(frame: CanFrame)
      modifies this`sent
      ensures sent == old(sent) + [frame]
    {
      sent := sent + [frame];
    }
  }
}
