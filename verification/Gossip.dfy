/** Gossip membership: how a node merges what it hears about its peers, how it passes messages on, and why
    one broadcast floods only so far. */
module Gossip {
  import opened Sequences
  import opened Wrappers

  // ---------- Merging ----------

  /** What a membership message says about its sender. */
  datatype Update = Update(incarnation: nat, ip: string, port: int, status: string)

  /** What is stored about a peer is of the same shape; an update replaces it only if its incarnation is higher,
      and an empty status never replaces one. */
  function Merge(known: Option<Update>, u: Update): Option<Update> {
    match known
    case None => Some(u)
    case Some(v) =>
      if u.incarnation > v.incarnation
      then Some(u.(status := if u.status != "" then u.status else v.status))
      else known
  }

  function MergeAll(known: Option<Update>, us: seq<Update>): Option<Update>
    decreases |us|
  {
    if us == [] then known else MergeAll(Merge(known, us[0]), us[1..])
  }

  /** The sequence holds exactly the updates of the set, in some order and with any repeats. */
  ghost predicate Enumerates(us: seq<Update>, s: set<Update>) {
    forall u :: u in us <==> u in s
  }

  ghost predicate IsTop(u: Update, s: set<Update>) {
    u in s && forall v :: v in s ==> v.incarnation <= u.incarnation
  }

  /** The updates of the highest incarnation agree, and if their status is empty so are all others. */
  ghost predicate Agreeable(s: set<Update>) {
    && (forall u, v :: IsTop(u, s) && IsTop(v, s) ==> u == v)
    && (forall u, v :: IsTop(u, s) && v in s && u.status == "" ==> v.status == "")
  }

  /** What is stored never goes back to a lower incarnation, and ends at the highest one seen. */
  lemma {:induction false} MergeKeepsHighest(known: Update, us: seq<Update>)
    ensures var r := MergeAll(Some(known), us);
      && r.Some? && r.value.incarnation >= known.incarnation
      && (forall u :: u in us ==> u.incarnation <= r.value.incarnation)
      && (r.value.incarnation == known.incarnation || exists u :: u in us && u.incarnation == r.value.incarnation)
    decreases |us|
  {
    if us != [] {
      MergeKeepsHighest(Merge(Some(known), us[0]).value, us[1..]);
      assert us == [us[0]] + us[1..];
    }
  }

  /** Nothing that is not newer changes what is stored. */
  lemma {:induction false} OldChangesNothing(known: Update, us: seq<Update>)
    requires forall u :: u in us ==> u.incarnation <= known.incarnation
    ensures MergeAll(Some(known), us) == Some(known)
  {
    if us != [] {
      OldChangesNothing(known, us[1..]);
    }
  }

  /** What is stored carries the address of an update with its incarnation, and its status if that has one. */
  lemma {:induction false} StoredFrom(s: set<Update>, known: Update, us: seq<Update>) returns (from: Update)
    requires forall u :: u in us ==> u in s
    requires exists o :: o in s && Carries(known, o)
    requires (forall u :: u in s ==> u.status == "") ==> known.status == ""
    ensures MergeAll(Some(known), us).Some? && from in s && Carries(MergeAll(Some(known), us).value, from)
    ensures (forall u :: u in s ==> u.status == "") ==> MergeAll(Some(known), us).value.status == ""
    decreases |us|
  {
    if us == [] {
      from :| from in s && Carries(known, from);
    } else {
      var next := Merge(Some(known), us[0]).value;
      assert next != known ==> us[0] in s && Carries(next, us[0]);
      from := StoredFrom(s, next, us[1..]);
    }
  }

  predicate Carries(v: Update, u: Update) {
    v.incarnation == u.incarnation && v.ip == u.ip && v.port == u.port && (u.status != "" ==> v.status == u.status)
  }

  lemma SomeTop(s: set<Update>) returns (top: Update)
    requires s != {}
    ensures IsTop(top, s)
  {
    top :| top in s;
    var rest := s - {top};
    while rest != {}
      invariant top in s && rest <= s
      invariant forall v :: v in s && v !in rest ==> v.incarnation <= top.incarnation
      decreases |rest|
    {
      var v :| v in rest;
      rest := rest - {v};
      if v.incarnation > top.incarnation {
        top := v;
      }
    }
  }

  lemma SomeOrder(s: set<Update>) returns (us: seq<Update>)
    ensures Enumerates(us, s)
  {
    us := [];
    var rest := s;
    while rest != {}
      invariant rest <= s && forall u :: u in us <==> u in s && u !in rest
      decreases |rest|
    {
      var u :| u in rest;
      rest := rest - {u};
      us := us + [u];
    }
  }

  /** Whatever the order and the repeats, the result is the one update of the highest incarnation. */
  lemma AgreeableResult(s: set<Update>, top: Update, us: seq<Update>)
    requires Agreeable(s) && IsTop(top, s) && Enumerates(us, s)
    ensures MergeAll(None, us) == Some(top)
  {
    assert top in us;
    assert us == [us[0]] + us[1..];
    assert us[0] in s && Carries(us[0], us[0]);
    var from := StoredFrom(s, us[0], us[1..]);
    MergeKeepsHighest(us[0], us[1..]);
    assert IsTop(from, s);
  }

  /** A top update heard first stays, whatever follows. */
  lemma TopFirst(s: set<Update>, u: Update, all: seq<Update>)
    requires IsTop(u, s) && Enumerates(all, s)
    ensures Enumerates([u] + all, s) && MergeAll(None, [u] + all) == Some(u)
  {
    assert ([u] + all)[1..] == all;
    OldChangesNothing(u, all);
  }

  /** A top update with an empty status, heard after an older one with a status, takes that status over. */
  lemma TopSecond(s: set<Update>, v: Update, u: Update, all: seq<Update>)
    requires IsTop(u, s) && v in s && Enumerates(all, s) && v.incarnation < u.incarnation && u.status == ""
    ensures Enumerates([v, u] + all, s) && MergeAll(None, [v, u] + all) == Some(u.(status := v.status))
  {
    assert ([v, u] + all)[1..] == [u] + all;
    assert ([u] + all)[1..] == all;
    OldChangesNothing(u.(status := v.status), all);
  }

  /** Updates that do not agree can be heard in two orders with different results. */
  lemma DisagreeableOrders(s: set<Update>) returns (us: seq<Update>, vs: seq<Update>)
    requires s != {} && !Agreeable(s)
    ensures Enumerates(us, s) && Enumerates(vs, s) && MergeAll(None, us) != MergeAll(None, vs)
  {
    var all := SomeOrder(s);
    if u, v :| IsTop(u, s) && IsTop(v, s) && u != v {
      us, vs := [u] + all, [v] + all;
      TopFirst(s, u, all);
      TopFirst(s, v, all);
    } else {
      var u, v :| IsTop(u, s) && v in s && u.status == "" && v.status != "";
      assert v.incarnation == u.incarnation ==> IsTop(v, s);
      us, vs := [u] + all, [v, u] + all;
      TopFirst(s, u, all);
      TopSecond(s, v, u, all);
    }
  }

  /** All orders, with any repeats, of a set of updates lead to the same result exactly when the updates of the
      highest incarnation agree and their status is not empty unless all are. */
  lemma OrderIndependence(s: set<Update>)
    requires s != {}
    ensures (forall us, vs :: Enumerates(us, s) && Enumerates(vs, s) ==> MergeAll(None, us) == MergeAll(None, vs))
            <==> Agreeable(s)
  {
    if Agreeable(s) {
      var top := SomeTop(s);
      forall us | Enumerates(us, s)
        ensures MergeAll(None, us) == Some(top)
      {
        AgreeableResult(s, top, us);
      }
    } else {
      var us, vs := DisagreeableOrders(s);
    }
  }

  /** Two updates of one incarnation with different addresses: whichever is heard first stays. */
  lemma SameIncarnationDiffers()
    ensures var u, v := Update(1, "10.0.0.1", 7946, "alive"), Update(1, "10.0.0.2", 7946, "alive");
      !Agreeable({u, v}) && MergeAll(None, [u, v]) == Some(u) && MergeAll(None, [v, u]) == Some(v)
  {
    var u, v := Update(1, "10.0.0.1", 7946, "alive"), Update(1, "10.0.0.2", 7946, "alive");
    assert "10.0.0.1"[7] != "10.0.0.2"[7];
    assert IsTop(u, {u, v}) && IsTop(v, {u, v});
    OldChangesNothing(u, [v]);
    OldChangesNothing(v, [u]);
    assert [u, v][1..] == [v] && [v, u][1..] == [u];
  }

  // ---------- What a node stores ----------

  datatype Peer = Peer(id: string, about: Update, lastSeen: int, isAlive: bool, isSuspect: bool)

  /** A membership message; the payload is None if it does not parse. */
  datatype Message = Message(sender: string, ttl: int, payload: Option<Peer>)

  function About(nodes: map<string, Peer>, id: string): Option<Update> {
    if id in nodes then Some(nodes[id].about) else None
  }

  /** The entry of a known peer after one more message from it. */
  function Refreshed(known: Peer, heard: Peer, now: int): Peer {
    if heard.about.incarnation > known.about.incarnation then
      var status := if heard.about.status != "" then heard.about.status else known.about.status;
      known.(about := Update(heard.about.incarnation, heard.about.ip, heard.about.port, status),
             lastSeen := now, isAlive := true, isSuspect := false)
    else known.(lastSeen := now, isSuspect := false)
  }

  function Receive(nodes: map<string, Peer>, localId: string, msg: Message, now: int): map<string, Peer> {
    if msg.sender == localId || msg.payload.None? then nodes
    else if msg.sender in nodes then nodes[msg.sender := Refreshed(nodes[msg.sender], msg.payload.value, now)]
    else nodes[msg.sender := msg.payload.value]
  }

  /** News of a known peer clears the suspicion and the time since it was heard; of a higher incarnation it also makes
      the peer alive and replaces its address, and its status unless the news has none. A new peer is stored as it
      presents itself. Nobody else's entry changes, and none does for a message of the node's own or an unreadable one. */
  lemma ReceiveMeaning(nodes: map<string, Peer>, localId: string, msg: Message, now: int)
    ensures var after := Receive(nodes, localId, msg, now);
      && (forall id :: id != msg.sender ==> (id in after <==> id in nodes) && (id in nodes ==> after[id] == nodes[id]))
      && (msg.sender == localId || msg.payload.None? ==> after == nodes)
      && (msg.sender != localId && msg.payload.Some? ==>
            && msg.sender in after
            && (msg.sender !in nodes ==> after[msg.sender] == msg.payload.value)
            && (msg.sender in nodes ==> RefreshedBy(nodes[msg.sender], msg.payload.value, after[msg.sender], now)))
  {
  }

  predicate RefreshedBy(known: Peer, heard: Peer, p: Peer, now: int) {
    && p.id == known.id && p.lastSeen == now && !p.isSuspect
    && (heard.about.incarnation > known.about.incarnation ==>
          && p.isAlive && p.about.incarnation == heard.about.incarnation
          && p.about.ip == heard.about.ip && p.about.port == heard.about.port
          && p.about.status == (if heard.about.status == "" then known.about.status else heard.about.status))
    && (heard.about.incarnation <= known.about.incarnation ==> p.about == known.about && p.isAlive == known.isAlive)
  }

  /** A message as it arrives, with the clock reading. */
  datatype Arrival = Arrival(message: Message, now: int)

  function ReceiveAll(nodes: map<string, Peer>, localId: string, heard: seq<Arrival>): map<string, Peer>
    decreases |heard|
  {
    if heard == [] then nodes
    else ReceiveAll(Receive(nodes, localId, heard[0].message, heard[0].now), localId, heard[1..])
  }

  /** What the messages say about one peer, in the order they arrived. */
  function UpdatesAbout(heard: seq<Arrival>, id: string): seq<Update> {
    if heard == [] then []
    else
      var m := heard[0].message;
      (if m.sender == id && m.payload.Some? then [m.payload.value.about] else []) + UpdatesAbout(heard[1..], id)
  }

  /** Whatever messages about whichever peers arrive in between, the entry of a peer is the merge of the updates about
      that peer alone. */
  lemma {:induction false} EntryIsMerge(nodes: map<string, Peer>, localId: string, heard: seq<Arrival>, id: string)
    ensures About(ReceiveAll(nodes, localId, heard), id)
            == if id == localId then About(nodes, id) else MergeAll(About(nodes, id), UpdatesAbout(heard, id))
    decreases |heard|
  {
    if heard != [] {
      var next := Receive(nodes, localId, heard[0].message, heard[0].now);
      EntryIsMerge(next, localId, heard[1..], id);
      if id != localId && heard[0].message.sender == id && heard[0].message.payload.Some? {
        assert UpdatesAbout(heard, id)[1..] == UpdatesAbout(heard[1..], id);
        assert About(next, id) == Merge(About(nodes, id), heard[0].message.payload.value.about);
      } else {
        assert About(next, id) == About(nodes, id);
        assert id != localId ==> UpdatesAbout(heard, id) == UpdatesAbout(heard[1..], id);
      }
    }
  }

  /** Messages from one peer that carry the given updates. */
  function Carrying(id: string, us: seq<Update>): seq<Arrival> {
    if us == [] then []
    else [Arrival(Message(id, 1, Some(Peer(id, us[0], 0, true, false))), 0)] + Carrying(id, us[1..])
  }

  lemma {:induction false} CarryingUpdates(id: string, us: seq<Update>)
    ensures UpdatesAbout(Carrying(id, us), id) == us
  {
    if us != [] {
      CarryingUpdates(id, us[1..]);
      assert Carrying(id, us)[1..] == Carrying(id, us[1..]);
    }
  }

  ghost predicate SameEntry(x: string, heardX: seq<Arrival>, y: string, heardY: seq<Arrival>, id: string) {
    About(ReceiveAll(map[], x, heardX), id) == About(ReceiveAll(map[], y, heardY), id)
  }

  /** Two nodes that have heard the same set of updates about a third, each in its own order, with its own repeats and
      among messages about anyone else, store the same about it, exactly when the set is agreeable. */
  lemma NodesAgree(x: string, y: string, id: string, s: set<Update>)
    requires s != {} && id != x && id != y
    ensures (forall heardX, heardY ::
               Enumerates(UpdatesAbout(heardX, id), s) && Enumerates(UpdatesAbout(heardY, id), s)
               ==> SameEntry(x, heardX, y, heardY, id))
            <==> Agreeable(s)
  {
    if Agreeable(s) {
      var top := SomeTop(s);
      forall heardX, heardY | Enumerates(UpdatesAbout(heardX, id), s) && Enumerates(UpdatesAbout(heardY, id), s)
        ensures SameEntry(x, heardX, y, heardY, id)
      {
        EntryIsMerge(map[], x, heardX, id);
        EntryIsMerge(map[], y, heardY, id);
        AgreeableResult(s, top, UpdatesAbout(heardX, id));
        AgreeableResult(s, top, UpdatesAbout(heardY, id));
      }
    } else {
      var us, vs := DisagreeableOrders(s);
      CarryingUpdates(id, us);
      CarryingUpdates(id, vs);
      EntryIsMerge(map[], x, Carrying(id, us), id);
      EntryIsMerge(map[], y, Carrying(id, vs), id);
      assert !SameEntry(x, Carrying(id, us), y, Carrying(id, vs), id);
    }
  }

  // ---------- A node ----------

  datatype Receiver = ToPeer(peer: Peer) | ToSeed(addr: string)

  datatype Sent = Sent(to: Receiver, message: Message)

  /** The peers that are alive, by the identifiers they are stored under. */
  function LiveIds(nodes: map<string, Peer>, localId: string): set<string> {
    set id | id in nodes && nodes[id].isAlive && nodes[id].id != localId
  }

  /** The peers stored under the identifiers of a set, each listed once, and under which identifiers. */
  ghost predicate ListsSet(listed: seq<Peer>, ids: seq<string>, nodes: map<string, Peer>, chosen: set<string>) {
    && |ids| == |listed| == |chosen|
    && (forall i :: 0 <= i < |ids| ==> ids[i] in chosen && ids[i] in nodes && nodes[ids[i]] == listed[i])
    && (forall i, j :: 0 <= i < j < |ids| ==> ids[i] != ids[j])
    && (forall id :: id in chosen ==> id in ids)
  }

  lemma ListsOneMore(listed: seq<Peer>, ids: seq<string>, nodes: map<string, Peer>, chosen: set<string>, id: string)
    requires ListsSet(listed, ids, nodes, chosen) && id !in chosen && id in nodes
    ensures ListsSet(listed + [nodes[id]], ids + [id], nodes, chosen + {id})
  {
  }

  /** The live peers, each listed once, and under which identifiers. */
  ghost predicate Lists(active: seq<Peer>, ids: seq<string>, nodes: map<string, Peer>, localId: string) {
    ListsSet(active, ids, nodes, LiveIds(nodes, localId))
  }

  ghost predicate IsLivePeer(p: Peer, nodes: map<string, Peer>, localId: string) {
    p.isAlive && p.id != localId && exists id :: id in nodes && nodes[id] == p
  }

  /** Every peer is stored under its own identifier. */
  ghost predicate KeyedById(nodes: map<string, Peer>) {
    forall id :: id in nodes ==> nodes[id].id == id
  }

  ghost predicate DifferentPeers(s: seq<Peer>) {
    forall i, j :: 0 <= i < j < |s| ==> s[i].id != s[j].id
  }

  /** Copies of a message to live peers, and not two to the same one. */
  ghost predicate CopiesToLive(sent: seq<Sent>, msg: Message, nodes: map<string, Peer>, localId: string) {
    && (forall i :: 0 <= i < |sent| ==>
          sent[i].message == msg && sent[i].to.ToPeer? && IsLivePeer(sent[i].to.peer, nodes, localId))
    && (KeyedById(nodes) ==> forall i, j :: 0 <= i < j < |sent| ==> sent[i].to != sent[j].to)
  }

  /** A selection from the live peers holds live peers, and none twice. */
  lemma SelectedFromLive(selected: seq<Peer>, active: seq<Peer>, ids: seq<string>, nodes: map<string, Peer>, localId: string)
    requires Lists(active, ids, nodes, localId) && multiset(selected) <= multiset(active)
    ensures forall i :: 0 <= i < |selected| ==> IsLivePeer(selected[i], nodes, localId)
    ensures KeyedById(nodes) ==> NoRepeats(selected)
  {
    forall i | 0 <= i < |selected|
      ensures IsLivePeer(selected[i], nodes, localId)
    {
      assert selected[i] in multiset(selected);
      assert selected[i] in active;
    }
    if KeyedById(nodes) {
      assert forall i :: 0 <= i < |ids| ==> active[i].id == ids[i];
      forall i, j | 0 <= i < j < |selected|
        ensures selected[i] != selected[j]
      {
        OnceOnly(active, selected[i]);
        if selected[i] == selected[j] {
          Twice(selected, i, j);
        }
      }
    }
  }

  /** The peers with another identifier, in order. */
  function Others(s: seq<Peer>, id: string): seq<Peer> {
    if s == [] then []
    else Others(s[..|s| - 1], id) + (if s[|s| - 1].id != id then [s[|s| - 1]] else [])
  }

  /** One copy of the message to each of the peers, in order. */
  ghost predicate PeerCopies(sent: seq<Sent>, peers: seq<Peer>, msg: Message) {
    |sent| == |peers| && forall i :: 0 <= i < |sent| ==> sent[i] == Sent(ToPeer(peers[i]), msg)
  }

  ghost predicate NoRepeats(s: seq<Peer>) {
    forall i, j :: 0 <= i < j < |s| ==> s[i] != s[j]
  }

  /** As many live peers as the fanout, or all of them if they are fewer, were selected, and all of these but the sender
      of the message have one copy of it. */
  ghost predicate PassedOn(sent: seq<Sent>, msg: Message, selected: seq<Peer>, nodes: map<string, Peer>, localId: string,
                           fanout: nat) {
    && |selected| == (if fanout > |LiveIds(nodes, localId)| then |LiveIds(nodes, localId)| else fanout)
    && (forall i :: 0 <= i < |selected| ==> IsLivePeer(selected[i], nodes, localId))
    && (KeyedById(nodes) ==> NoRepeats(selected))
    && PeerCopies(sent, Others(selected, msg.sender), msg)
  }

  lemma {:induction false} OthersMembers(s: seq<Peer>, id: string)
    ensures |Others(s, id)| <= |s|
    ensures forall p :: p in Others(s, id) <==> p in s && p.id != id
  {
    if s != [] {
      OthersMembers(s[..|s| - 1], id);
      assert s == s[..|s| - 1] + [s[|s| - 1]];
    }
  }

  lemma {:induction false} OthersNoRepeats(s: seq<Peer>, id: string)
    requires NoRepeats(s)
    ensures NoRepeats(Others(s, id))
  {
    if s != [] {
      var front := s[..|s| - 1];
      OthersNoRepeats(front, id);
      OthersMembers(front, id);
      var o := Others(front, id);
      assert forall i :: 0 <= i < |o| ==> o[i] in o && o[i] in front;
    }
  }

  /** At most one peer of a list without repetitions has the identifier. */
  lemma {:induction false} OthersCount(s: seq<Peer>, id: string)
    requires DifferentPeers(s)
    ensures |Others(s, id)| >= |s| - (if exists p :: p in s && p.id == id then 1 else 0)
  {
    if s != [] {
      var front := s[..|s| - 1];
      OthersCount(front, id);
      assert forall p :: p in front ==> p in s;
      assert s[|s| - 1] in s;
      assert s[|s| - 1].id == id ==> forall p :: p in front ==> p.id != id;
    }
  }

  lemma OthersSelected(selected: seq<Peer>, id: string, nodes: map<string, Peer>, localId: string)
    requires forall i :: 0 <= i < |selected| ==> IsLivePeer(selected[i], nodes, localId)
    requires KeyedById(nodes) ==> NoRepeats(selected)
    ensures var o := Others(selected, id);
      && |o| <= |selected|
      && (forall i :: 0 <= i < |o| ==> IsLivePeer(o[i], nodes, localId) && o[i].id != id)
      && (KeyedById(nodes) ==> NoRepeats(o) && |o| >= |selected| - 1)
  {
    OthersMembers(selected, id);
    var o := Others(selected, id);
    assert forall i :: 0 <= i < |o| ==> o[i] in o;
    if KeyedById(nodes) {
      forall i, j | 0 <= i < j < |selected|
        ensures selected[i].id != selected[j].id
      {
        assert IsLivePeer(selected[i], nodes, localId) && IsLivePeer(selected[j], nodes, localId);
      }
      OthersNoRepeats(selected, id);
      OthersCount(selected, id);
    }
  }

  /** The copies go to live peers other than the sender, none to the same one twice, and at most one selected peer is
      left out. */
  lemma PassedOnMeaning(sent: seq<Sent>, msg: Message, selected: seq<Peer>, nodes: map<string, Peer>, localId: string,
                        fanout: nat)
    requires PassedOn(sent, msg, selected, nodes, localId, fanout)
    ensures |sent| <= fanout && CopiesToLive(sent, msg, nodes, localId)
    ensures forall i :: 0 <= i < |sent| ==> sent[i].to.peer.id != msg.sender
    ensures KeyedById(nodes) ==> |sent| >= |selected| - 1
  {
    OthersSelected(selected, msg.sender, nodes, localId);
  }

  /** The seed addresses that parse, in order. */
  function Parsing(seeds: seq<string>, parses: string -> bool): seq<string> {
    if seeds == [] then []
    else Parsing(seeds[..|seeds| - 1], parses)
         + (if parses(seeds[|seeds| - 1]) then [seeds[|seeds| - 1]] else [])
  }

  class GossipNode {
    const localId: string
    const fanout: nat
    const maxTtl: int
    const parses: string -> bool
    var nodes: map<string, Peer>
    var seeds: seq<string>

    constructor (localId: string, fanout: nat, maxTtl: int, parses: string -> bool)
      ensures this.localId == localId && this.fanout == fanout && this.maxTtl == maxTtl && this.parses == parses
      ensures nodes == map[] && seeds == []
    {
      this.localId := localId;
      this.fanout := fanout;
      this.maxTtl := maxTtl;
      this.parses := parses;
      nodes := map[];
      seeds := [];
    }

    method AddSeed(addr: string)
      modifies this`seeds
      ensures seeds == if addr in old(seeds) then old(seeds) else old(seeds) + [addr]
    {
      for i := 0 to |seeds|
        invariant addr !in seeds[..i] && seeds == old(seeds)
      {
        if seeds[i] == addr {
          return;
        }
      }
      assert seeds[..|seeds|] == seeds;
      seeds := seeds + [addr];
    }

    method UpdateNodeFromMessage(msg: Message, now: int)
      modifies this`nodes
      ensures nodes == Receive(old(nodes), localId, msg, now)
    {
      if msg.sender == localId || msg.payload.None? {
        return;
      }
      var state := msg.payload.value;
      if msg.sender in nodes {
        var existing := nodes[msg.sender];
        if state.about.incarnation > existing.about.incarnation {
          var status := if state.about.status != "" then state.about.status else existing.about.status;
          existing := existing.(about := Update(state.about.incarnation, state.about.ip, state.about.port, status),
                                lastSeen := now, isAlive := true, isSuspect := false);
        } else {
          existing := existing.(lastSeen := now, isSuspect := false);
        }
        nodes := nodes[msg.sender := existing];
      } else {
        nodes := nodes[msg.sender := state];
      }
    }

    /** The peers that are alive, each once, in whatever order the map yields them. */
    method GetActiveNodes() returns (active: seq<Peer>, ghost ids: seq<string>)
      ensures |active| == |LiveIds(nodes, localId)|
      ensures Lists(active, ids, nodes, localId)
    {
      active, ids := [], [];
      ghost var done: set<string> := {};
      var rest := nodes.Keys;
      while rest != {}
        invariant rest <= nodes.Keys
        invariant done == set id | id in nodes && id !in rest && nodes[id].isAlive && nodes[id].id != localId
        invariant ListsSet(active, ids, nodes, done)
        decreases |rest|
      {
        var id :| id in rest;
        rest := rest - {id};
        if nodes[id].isAlive && nodes[id].id != localId {
          ListsOneMore(active, ids, nodes, done, id);
          active := active + [nodes[id]];
          ids := ids + [id];
          done := done + {id};
        }
      }
      assert done == LiveIds(nodes, localId);
    }

    /** Handles a membership message: stores what it says, and passes it on with one hop less to at most `fanout`
        different live peers, never to its sender or to itself. */
    method HandleMessage(msg: Message, now: int) returns (sent: seq<Sent>, ghost selected: seq<Peer>)
      modifies this`nodes
      ensures nodes == Receive(old(nodes), localId, msg, now)
      ensures |sent| <= (if msg.ttl <= 1 then 0 else fanout)
      ensures if msg.ttl > 1 && msg.sender != localId
              then PassedOn(sent, msg.(ttl := msg.ttl - 1), selected, nodes, localId, fanout) else sent == []
      ensures CopiesToLive(sent, msg.(ttl := msg.ttl - 1), nodes, localId)
      ensures forall i :: 0 <= i < |sent| ==> sent[i].to.peer.id != msg.sender
      ensures msg.sender == localId ==> sent == []
    {
      UpdateNodeFromMessage(msg, now);
      if msg.ttl > 0 && msg.sender != localId {
        sent, selected := ForwardMessage(msg.(ttl := msg.ttl - 1));
      } else {
        sent, selected := [], [];
      }
    }

    /** Of `fanout` peers chosen at random, all but the sender of the message get a copy. */
    method ForwardMessage(msg: Message) returns (sent: seq<Sent>, ghost selected: seq<Peer>)
      ensures |sent| <= if msg.ttl <= 0 then 0 else fanout
      ensures if msg.ttl > 0 then PassedOn(sent, msg, selected, nodes, localId, fanout) else sent == []
      ensures CopiesToLive(sent, msg, nodes, localId)
      ensures forall i :: 0 <= i < |sent| ==> sent[i].to.peer.id != msg.sender
      ensures KeyedById(nodes) && msg.ttl > 0 ==>
                |sent| >= (if fanout > |LiveIds(nodes, localId)| then |LiveIds(nodes, localId)| else fanout) - 1
    {
      sent, selected := [], [];
      if msg.ttl <= 0 {
        return;
      }
      var active, ids := GetActiveNodes();
      if |active| == 0 {
        return;
      }
      var chosen := SelectRandomNodes(active, fanout);
      selected := chosen;
      SelectedFromLive(chosen, active, ids, nodes, localId);
      for i := 0 to |chosen|
        invariant PeerCopies(sent, Others(chosen[..i], msg.sender), msg)
      {
        assert chosen[..i + 1][..i] == chosen[..i];
        assert IsLivePeer(chosen[i], nodes, localId);
        if chosen[i].id != msg.sender && chosen[i].id != localId {
          sent := sent + [Sent(ToPeer(chosen[i]), msg)];
        }
      }
      assert chosen[..|chosen|] == chosen;
      PassedOnMeaning(sent, msg, selected, nodes, localId, fanout);
    }

    /** Sends the node's own state to `fanout` different live peers, or to all of them if they are fewer; with no live
        peer, to every seed address that parses. */
    method Broadcast(own: Peer) returns (sent: seq<Sent>)
      ensures var live := |LiveIds(nodes, localId)|;
        if live > 0
        then |sent| == (if fanout > live then live else fanout)
             && CopiesToLive(sent, Message(localId, maxTtl, Some(own)), nodes, localId)
        else SeedCopies(sent, Parsing(seeds, parses), Message(localId, maxTtl, Some(own)))
    {
      var msg := Message(localId, maxTtl, Some(own));
      var active, ids := GetActiveNodes();
      if |active| == 0 {
        sent := BroadcastToSeeds(msg);
        return;
      }
      var selected := SelectRandomNodes(active, if fanout > |active| then |active| else fanout);
      SelectedFromLive(selected, active, ids, nodes, localId);
      sent := [];
      for i := 0 to |selected|
        invariant |sent| == i
        invariant forall j :: 0 <= j < i ==> sent[j] == Sent(ToPeer(selected[j]), msg)
      {
        sent := sent + [Sent(ToPeer(selected[i]), msg)];
      }
    }

    method BroadcastToSeeds(msg: Message) returns (sent: seq<Sent>)
      ensures SeedCopies(sent, Parsing(seeds, parses), msg)
    {
      sent := [];
      for i := 0 to |seeds|
        invariant SeedCopies(sent, Parsing(seeds[..i], parses), msg)
      {
        assert seeds[..i + 1][..i] == seeds[..i];
        if parses(seeds[i]) {
          sent := sent + [Sent(ToSeed(seeds[i]), msg)];
        }
      }
      assert seeds[..|seeds|] == seeds;
    }
  }

  /** One copy of the message to each of the addresses, in order. */
  ghost predicate SeedCopies(sent: seq<Sent>, addrs: seq<string>, msg: Message) {
    |sent| == |addrs| && forall i :: 0 <= i < |sent| ==> sent[i] == Sent(ToSeed(addrs[i]), msg)
  }

  /** Shuffles a copy and takes its front: the result is a selection without repetition, whatever the dice say. */
  method SelectRandomNodes(nodes: seq<Peer>, count: nat) returns (r: seq<Peer>)
    ensures |r| == if count > |nodes| then |nodes| else count
    ensures multiset(r) <= multiset(nodes)
  {
    if |nodes| == 0 {
      return [];
    }
    var k := if count > |nodes| then |nodes| else count;
    var shuffled := new Peer[|nodes|](i requires 0 <= i < |nodes| => nodes[i]);
    assert shuffled[..] == nodes;
    assert multiset(shuffled[..]) == multiset(nodes);
    var i := shuffled.Length - 1;
    while i > 0
      invariant i < shuffled.Length && multiset(shuffled[..]) == multiset(nodes)
      decreases i
    {
      var j :| 0 <= j <= i;
      ghost var before := shuffled[..];
      shuffled[i], shuffled[j] := shuffled[j], shuffled[i];
      assert shuffled[..] == before[i := before[j]][j := before[i]];
      SwapKeeps(before, i, j);
      i := i - 1;
    }
    r := shuffled[..k];
    assert shuffled[..][..k] == shuffled[..k];
    FrontIsPart(shuffled[..], k);
  }

  lemma SwapKeeps(s: seq<Peer>, i: nat, j: nat)
    requires i < |s| && j < |s|
    ensures multiset(s[i := s[j]][j := s[i]]) == multiset(s)
  {
  }

  lemma FrontIsPart(s: seq<Peer>, k: nat)
    requires k <= |s|
    ensures multiset(s[..k]) <= multiset(s)
  {
    assert s == s[..k] + s[k..];
  }

  // ---------- Flooding ----------

  /** At most how many copies a delivered message with this time to live is passed on as. */
  function Copies(fanout: nat, ttl: int): nat {
    if ttl <= 1 then 0 else fanout
  }

  /** The most deliveries one message can still cause, its own included. */
  function Weight(fanout: nat, ttl: int): nat
    decreases if ttl < 0 then 0 else ttl
  {
    if ttl <= 1 then 1 else 1 + fanout * Weight(fanout, ttl - 1)
  }

  function TotalWeight(fanout: nat, flight: seq<int>): nat {
    if flight == [] then 0 else Weight(fanout, flight[0]) + TotalWeight(fanout, flight[1..])
  }

  /** One broadcast under way: the times to live of the messages in flight, and how many were ever sent. */
  datatype Net = Net(flight: seq<int>, sent: nat)

  datatype Event = Deliver(i: nat, copies: nat) | Lose(i: nat)

  predicate Possible(fanout: nat, n: Net, e: Event) {
    match e
    case Deliver(i, copies) => i < |n.flight| && copies <= Copies(fanout, n.flight[i])
    case Lose(i) => i < |n.flight|
  }

  function Repeat(x: int, n: nat): seq<int> {
    if n == 0 then [] else [x] + Repeat(x, n - 1)
  }

  function Happens(fanout: nat, n: Net, e: Event): Net
    requires Possible(fanout, n, e)
  {
    var rest := n.flight[..e.i] + n.flight[e.i + 1..];
    match e
    case Deliver(i, copies) => Net(rest + Repeat(n.flight[i] - 1, copies), n.sent + copies)
    case Lose(_) => n.(flight := rest)
  }

  ghost predicate PossibleRun(fanout: nat, n: Net, es: seq<Event>)
    decreases |es|
  {
    es != [] ==> Possible(fanout, n, es[0]) && PossibleRun(fanout, Happens(fanout, n, es[0]), es[1..])
  }

  ghost function RunAll(fanout: nat, n: Net, es: seq<Event>): Net
    requires PossibleRun(fanout, n, es)
    decreases |es|
  {
    if es == [] then n else RunAll(fanout, Happens(fanout, n, es[0]), es[1..])
  }

  lemma {:induction false} WeightConcat(fanout: nat, a: seq<int>, b: seq<int>)
    ensures TotalWeight(fanout, a + b) == TotalWeight(fanout, a) + TotalWeight(fanout, b)
  {
    if a == [] {
      assert a + b == b;
    } else {
      assert (a + b)[1..] == a[1..] + b;
      WeightConcat(fanout, a[1..], b);
    }
  }

  lemma {:induction false} WeightRepeat(fanout: nat, x: int, n: nat)
    ensures TotalWeight(fanout, Repeat(x, n)) == n * Weight(fanout, x)
    ensures |Repeat(x, n)| == n
  {
    if n > 0 {
      assert Repeat(x, n)[1..] == Repeat(x, n - 1);
      WeightRepeat(fanout, x, n - 1);
    }
  }

  lemma WeightRemove(fanout: nat, flight: seq<int>, i: nat)
    requires i < |flight|
    ensures TotalWeight(fanout, flight) == TotalWeight(fanout, flight[..i] + flight[i + 1..]) + Weight(fanout, flight[i])
  {
    assert flight == flight[..i] + ([flight[i]] + flight[i + 1..]);
    WeightConcat(fanout, flight[..i], [flight[i]] + flight[i + 1..]);
    WeightConcat(fanout, [flight[i]], flight[i + 1..]);
    WeightConcat(fanout, flight[..i], flight[i + 1..]);
    assert [flight[i]][1..] == [];
  }

  lemma {:induction false} AtLeastOneEach(fanout: nat, flight: seq<int>)
    ensures TotalWeight(fanout, flight) >= |flight|
  {
    if flight != [] {
      AtLeastOneEach(fanout, flight[1..]);
    }
  }

  lemma ProductKeepsOrder(a: nat, b: nat, w: nat)
    requires a <= b
    ensures a * w <= b * w
  {
  }

  /** What is in flight after a delivery weighs what was in flight before, less the message, plus its copies. */
  lemma DeliveredWeight(fanout: nat, n: Net, e: Event)
    requires Possible(fanout, n, e) && e.Deliver?
    ensures var n', t := Happens(fanout, n, e), n.flight[e.i];
      && TotalWeight(fanout, n'.flight)
         == TotalWeight(fanout, n.flight) - Weight(fanout, t) + e.copies * Weight(fanout, t - 1)
      && |n'.flight| == |n.flight| - 1 + e.copies
  {
    var t, rest := n.flight[e.i], n.flight[..e.i] + n.flight[e.i + 1..];
    WeightRemove(fanout, n.flight, e.i);
    WeightConcat(fanout, rest, Repeat(t - 1, e.copies));
    WeightRepeat(fanout, t - 1, e.copies);
  }

  lemma CopiesPaid(fanout: nat, ttl: int, copies: nat)
    requires copies <= Copies(fanout, ttl)
    ensures 1 + copies * Weight(fanout, ttl - 1) <= Weight(fanout, ttl)
  {
    ProductKeepsOrder(copies, Copies(fanout, ttl), Weight(fanout, ttl - 1));
  }

  /** A delivery or a loss takes at least one from the total weight, and each copy sent is paid for. */
  lemma EventLightens(fanout: nat, n: Net, e: Event)
    requires Possible(fanout, n, e)
    ensures var n' := Happens(fanout, n, e);
      && TotalWeight(fanout, n'.flight) < TotalWeight(fanout, n.flight)
      && n'.sent + TotalWeight(fanout, n'.flight) - |n'.flight| <= n.sent + TotalWeight(fanout, n.flight) - |n.flight|
  {
    if e.Deliver? {
      DeliveredWeight(fanout, n, e);
      CopiesPaid(fanout, n.flight[e.i], e.copies);
    } else {
      WeightRemove(fanout, n.flight, e.i);
    }
  }

  /** A flood of any length: the number of events and the number of messages sent are bounded by the weight. */
  lemma {:induction false} FloodBound(fanout: nat, n: Net, es: seq<Event>)
    requires PossibleRun(fanout, n, es)
    ensures |es| <= TotalWeight(fanout, n.flight)
    ensures RunAll(fanout, n, es).sent <= n.sent + TotalWeight(fanout, n.flight) - |n.flight|
    decreases |es|
  {
    if es == [] {
      AtLeastOneEach(fanout, n.flight);
    } else {
      EventLightens(fanout, n, es[0]);
      FloodBound(fanout, Happens(fanout, n, es[0]), es[1..]);
    }
  }

  function Power(b: nat, e: nat): nat {
    if e == 0 then 1 else b * Power(b, e - 1)
  }

  /** b + b^2 + ... + b^e */
  function Powers(b: nat, e: nat): nat {
    if e == 0 then 0 else Powers(b, e - 1) + Power(b, e)
  }

  lemma DistributeSum(b: nat, x: nat, y: nat)
    ensures b * (x + y) == b * x + b * y
  {
  }

  lemma {:induction false} PowersTimes(b: nat, e: nat)
    ensures Powers(b, e + 1) == b + b * Powers(b, e)
  {
    if e == 0 {
      assert Power(b, 1) == b * Power(b, 0) == b;
      assert Powers(b, 1) == Powers(b, 0) + Power(b, 1);
    } else {
      PowersTimes(b, e - 1);
      DistributeSum(b, Powers(b, e - 1), Power(b, e));
      assert Power(b, e + 1) == b * Power(b, e);
    }
  }

  lemma Distribute(a: nat, b: nat)
    ensures a * (1 + b) == a + a * b
  {
  }

  lemma {:induction false} WeightIsPowers(fanout: nat, ttl: nat)
    requires ttl >= 1
    ensures fanout * Weight(fanout, ttl) == Powers(fanout, ttl)
  {
    if ttl == 1 {
      assert Power(fanout, 1) == fanout * Power(fanout, 0);
    } else {
      WeightIsPowers(fanout, ttl - 1);
      PowersTimes(fanout, ttl - 1);
      Distribute(fanout, fanout * Weight(fanout, ttl - 1));
    }
  }

  /** One broadcast to k receivers, whatever is delivered, lost or delayed. */
  lemma BroadcastFloods(fanout: nat, maxTtl: nat, k: nat, es: seq<Event>)
    requires PossibleRun(fanout, Net(Repeat(maxTtl, k), k), es)
    ensures RunAll(fanout, Net(Repeat(maxTtl, k), k), es).sent <= k * Weight(fanout, maxTtl)
    ensures |es| <= k * Weight(fanout, maxTtl)
  {
    FloodBound(fanout, Net(Repeat(maxTtl, k), k), es);
    WeightRepeat(fanout, maxTtl, k);
  }

  /** One broadcast to k <= fanout peers, whatever is delivered, lost or delayed, causes at most
      fanout + fanout^2 + ... + fanout^maxTtl sends, and as many events. A broadcast to k seeds causes at most
      k * (1 + fanout + ... + fanout^(maxTtl - 1)). */
  lemma BroadcastBound(fanout: nat, maxTtl: nat, k: nat, es: seq<Event>)
    requires maxTtl >= 1 && PossibleRun(fanout, Net(Repeat(maxTtl, k), k), es)
    ensures var sent, bound := RunAll(fanout, Net(Repeat(maxTtl, k), k), es).sent, k * (1 + Powers(fanout, maxTtl - 1));
      && sent <= bound && |es| <= bound
      && (k <= fanout ==> sent <= Powers(fanout, maxTtl) && |es| <= Powers(fanout, maxTtl))
  {
    BroadcastFloods(fanout, maxTtl, k, es);
    WeightIsOneMore(fanout, maxTtl);
    WeightIsPowers(fanout, maxTtl);
    if k <= fanout {
      ProductKeepsOrder(k, fanout, Weight(fanout, maxTtl));
    }
  }

  lemma WeightIsOneMore(fanout: nat, ttl: nat)
    requires ttl >= 1
    ensures Weight(fanout, ttl) == 1 + Powers(fanout, ttl - 1)
  {
    if ttl > 1 {
      WeightIsPowers(fanout, ttl - 1);
    }
  }
}
