/** The iOS main app's forwarder: on a timer, while there are clients, it drains the
    shared store and broadcasts each packet in stored order. */
module StreamForwarder {
  import opened Bytes
  import opened MirrorServer
  import opened SharedBuffer

  class Forwarder {
    const server: Server
    const store: Store
    var isRunning: bool
    /** Whether a timer is scheduled, and how many have been scheduled so far. */
    var hasTimer: bool
    var timersScheduled: nat

    constructor (server: Server, store: Store)
      ensures this.server == server && this.store == store
      ensures !isRunning && !hasTimer && timersScheduled == 0
    {
      this.server := server;
      this.store := store;
      isRunning := false;
      hasTimer := false;
      timersScheduled := 0;
    }

    /** `start`: nothing while running, so a second timer is never scheduled. */
    method Start()
      modifies this
      ensures isRunning && hasTimer == (old(hasTimer) || !old(isRunning))
      ensures timersScheduled == old(timersScheduled) + if old(isRunning) then 0 else 1
    {
      if isRunning {
        return;
      }
      isRunning := true;
      hasTimer := true;
      timersScheduled := timersScheduled + 1;
    }

    /** `stop`: the flag cleared and the timer invalidated and dropped. */
    method Stop()
      modifies this
      ensures !isRunning && !hasTimer && timersScheduled == old(timersScheduled)
    {
      isRunning := false;
      hasTimer := false;
    }

    /** One timer tick. Without clients the store is not even read; otherwise it is
        drained and every packet broadcast, oldest first. */
    method ForwardPackets()
      modifies server`deliveries, store`packets
      ensures old(server.connections) == [] ==>
        server.deliveries == old(server.deliveries) && store.packets == old(store.packets)
      ensures old(server.connections) != [] ==>
        var drained := if store.available then old(store.packets) else [];
        store.packets == (if store.available then [] else old(store.packets)) &&
        server.deliveries == old(server.deliveries) + BroadcastAll(server.connections, drained)
    {
      var has := server.HasConnections();
      if !has {
        return;
      }
      var packets := store.ReadPackets();
      ghost var cs := server.connections;
      for i := 0 to |packets|
        invariant server.connections == cs && store.packets == (if store.available then [] else old(store.packets))
        invariant server.deliveries == old(server.deliveries) + BroadcastAll(cs, packets[..i])
      {
        BroadcastAllAppend(cs, packets[..i], [packets[i]]);
        assert BroadcastAll(cs, [packets[i]]) == Deliveries(cs, packets[i]) + BroadcastAll(cs, []);
        assert packets[..i + 1] == packets[..i] + [packets[i]];
        server.Broadcast(packets[i]);
      }
      assert packets[..|packets|] == packets;
    }
  }
}
