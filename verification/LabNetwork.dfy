/** The network object's tables; a missing or nil entry reads as disabled or absent. */
module LabNetwork {
  import R = LabRpc

  datatype Ref = Nil | Ref(id: nat)

  class Network {
    var enabled: map<nat, bool>
    var servers: map<nat, Ref>
    var connections: map<nat, Ref>

    function Installed(): map<nat, nat>
      reads this
    {
      map i | i in servers && servers[i].Ref? :: servers[i].id
    }

    /** The tables of the step machine's state are the ones held here. */
    ghost predicate Shows(s: R.Sys)
      reads this
    {
      && (forall e :: e in s.enabled <==> e in enabled && enabled[e])
      && s.installed == Installed()
      && s.connections == map e | e in connections && connections[e].Ref? :: connections[e].id
    }

    constructor ()
      ensures Shows(R.START)
    {
      enabled, servers, connections := map[], map[], map[];
    }

    method ReadEndnameInfo(end: nat) returns (ok: bool, name: nat, inst: nat)
      ensures forall s: R.Sys :: Shows(s) ==>
        ok == R.Reachable(s, end) && (ok ==> name == s.connections[end] && inst == s.installed[name])
    {
      ok, name, inst := false, 0, 0;
      var up := end in enabled && enabled[end];
      if up && end in connections && connections[end].Ref? {
        name := connections[end].id;
        if name in servers && servers[name].Ref? {
          ok, inst := true, servers[name].id;
        }
      }
    }

    method IsServerDead(end: nat, name: nat, inst: nat) returns (dead: bool)
      ensures forall s: R.Sys :: Shows(s) ==> dead == R.IsServerDead(s, end, name, inst)
    {
      var up := end in enabled && enabled[end];
      dead := !up || name !in servers || servers[name] != Ref(inst);
    }

    method AddServer(name: nat, inst: nat)
      modifies this`servers
      ensures Installed() == old(Installed())[name := inst]
    {
      servers := servers[name := Ref(inst)];
    }

    method DeleteServer(name: nat)
      modifies this`servers
      ensures Installed() == old(Installed()) - {name}
    {
      servers := servers[name := Nil];
    }
  }
}
