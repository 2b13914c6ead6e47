/** What a new configuration makes of a server's peers. */
module Membership {
  import opened Types
  import opened Codec
  import opened ServerSpec

  /** The server with the given id, if a configuration lists it. */
  method GetServer(c: ClusterConfig, id: Id) returns (found: bool)
    ensures found <==> id in MemberIds(c)
  {
    found := false;
    for k := 0 to |c.servers|
      invariant !found && forall i | 0 <= i < k :: c.servers[i].id != id
    {
      if c.servers[k].id == id {
        return true;
      }
    }
  }

  /** The record of a peer that has just been added; a joining server brings its own next index. */
  function NewPeer(j: Id, next: nat, leads: bool, joining: Option<(Id, nat)>): Peer {
    Peer(if leads && joining.Some? && joining.value.0 == j then joining.value.1 else next, 0, false, false)
  }

  /** The other members of `c`, those already known with their records unchanged. */
  ghost predicate Reconfigured(id: Id, peers: map<Id, Peer>, c: ClusterConfig, next: nat, leads: bool,
                               joining: Option<(Id, nat)>, ps: map<Id, Peer>)
  {
    && ps.Keys == MemberIds(c) - {id}
    && (forall j | j in ps :: ps[j] == if j in peers then peers[j] else NewPeer(j, next, leads, joining))
  }

  /** The ids in a list. */
  function Ids(xs: seq<Id>): set<Id> { set x | x in xs }

  lemma IdsMore(xs: seq<Id>, x: Id)
    ensures Ids(xs + [x]) == Ids(xs) + {x}
  {
  }

  lemma MembersMore(c: ClusterConfig, k: nat)
    requires k < |c.servers|
    ensures MemberIds(c.(servers := c.servers[..k + 1])) == MemberIds(c.(servers := c.servers[..k])) + {c.servers[k].id}
  {
  }

  method FindAdded(id: Id, peers: map<Id, Peer>, c: ClusterConfig) returns (added: seq<Id>)
    ensures Ids(added) == MemberIds(c) - peers.Keys - {id}
  {
    added := [];
    for k := 0 to |c.servers|
      invariant Ids(added) == MemberIds(c.(servers := c.servers[..k])) - peers.Keys - {id}
    {
      MembersMore(c, k);
      var x := c.servers[k].id;
      IdsMore(added, x);
      if x !in peers && x != id {
        added := added + [x];
      }
    }
    assert c.servers[..|c.servers|] == c.servers;
  }

  method FindUnlisted(peers: map<Id, Peer>, c: ClusterConfig) returns (removed: seq<Id>)
    ensures Ids(removed) == peers.Keys - MemberIds(c)
  {
    hide MemberIds, Ids;
    removed := [];
    var todo := peers.Keys;
    assert Ids([]) == {} by { IdsNone(); }
    while todo != {}
      invariant todo <= peers.Keys && Ids(removed) == peers.Keys - todo - MemberIds(c)
      decreases |todo|
    {
      assert (forall j :: j !in todo) ==> todo == {};
      var j :| j in todo;
      var listed := GetServer(c, j);
      IdsMore(removed, j);
      if !listed {
        removed := removed + [j];
      }
      todo := todo - {j};
    }
  }

  lemma IdsNone()
    ensures Ids([]) == {}
  {
  }

  /** First the peers that are no longer listed, then this server if it is not. */
  method FindRemoved(id: Id, peers: map<Id, Peer>, c: ClusterConfig) returns (removed: seq<Id>)
    requires id !in peers
    ensures Ids(removed) == peers.Keys + {id} - MemberIds(c)
    ensures id in removed ==> removed[|removed| - 1] == id && id !in removed[..|removed| - 1]
  {
    removed := FindUnlisted(peers, c);
    var listed := GetServer(c, id);
    assert id in removed ==> id in Ids(removed);
    IdsMore(removed, id);
    if !listed {
      removed := removed + [id];
    }
  }

  method AddPeers(peers: map<Id, Peer>, added: seq<Id>, next: nat, leads: bool, joining: Option<(Id, nat)>)
    returns (ps: map<Id, Peer>)
    requires forall x | x in added :: x !in peers
    ensures ps.Keys == peers.Keys + Ids(added)
    ensures forall j | j in ps :: ps[j] == if j in peers then peers[j] else NewPeer(j, next, leads, joining)
  {
    ps := peers;
    for k := 0 to |added|
      invariant ps.Keys == peers.Keys + Ids(added[..k])
      invariant forall j | j in ps :: ps[j] == if j in peers then peers[j] else NewPeer(j, next, leads, joining)
    {
      if added[k] !in ps {
        ps := ps[added[k] := NewPeer(added[k], next, leads, joining)];
      }
    }
  }

  /** Erases peers until this server's own id comes up. */
  method RemovePeers(id: Id, peers: map<Id, Peer>, removed: seq<Id>, catchingUp: bool)
    returns (gone: bool, ps: map<Id, Peer>)
    requires id !in peers
    requires id in removed ==> removed[|removed| - 1] == id && id !in removed[..|removed| - 1]
    ensures gone <==> id in removed && !catchingUp
    ensures ps == peers - Ids(removed)
  {
    ps, gone := peers, false;
    for k := 0 to |removed|
      invariant !gone && ps == peers - Ids(removed[..k])
      invariant id in removed[..k] ==> catchingUp
    {
      var r := removed[k];
      assert removed[..k + 1] == removed[..k] + [r];
      if r == id && !catchingUp {
        assert k == |removed| - 1 && removed[..k + 1] == removed;
        return true, ps;
      }
      if r in ps {
        ps := ps - {r};
      }
    }
    assert removed[..|removed|] == removed;
  }

  /**
   Either this server is no longer a member, and stops, or its peers are exactly
   the other members, with what it knew about the old ones untouched.
   */
  method Reconfigure(id: Id, peers: map<Id, Peer>, c: ClusterConfig, next: nat, leads: bool,
                     joining: Option<(Id, nat)>, catchingUp: bool)
    returns (gone: bool, ps: map<Id, Peer>)
    requires id !in peers
    ensures gone <==> id !in MemberIds(c) && !catchingUp
    ensures Reconfigured(id, peers, c, next, leads, joining, ps)
  {
    var added := FindAdded(id, peers, c);
    var removed := FindRemoved(id, peers, c);
    assert forall x | x in added :: x in Ids(added);
    ps := AddPeers(peers, added, next, leads, joining);
    assert id !in Ids(added);
    assert id in removed <==> id in Ids(removed);
    gone, ps := RemovePeers(id, ps, removed, catchingUp);
  }

  /** The same members in any order leave the peers as they are. */
  lemma SamePeers(id: Id, peers: map<Id, Peer>, c: ClusterConfig, next: nat, leads: bool, joining: Option<(Id, nat)>,
                  ps: map<Id, Peer>)
    requires id !in peers && MemberIds(c) == peers.Keys + {id} && Reconfigured(id, peers, c, next, leads, joining, ps)
    ensures ps == peers
  {
    assert ps.Keys == peers.Keys;
  }
}
