/** The part of the Redis server the order path shares between objects. */
module Redis {
  import opened Wrappers
  import opened OrderProtocol
  import opened Positions

  class Server {
    var now: real
    var idem: map<string, Cached>
    var locks: map<string, real>
    var killed: bool
    var pnl: Option<real>
    var positions: Store

    constructor ()
      ensures now == 0.0 && idem == map[] && locks == map[] && !killed && pnl == None && positions == map[]
    {
      now, idem, locks, killed, pnl, positions := 0.0, map[], map[], false, None, map[];
    }
  }
}
