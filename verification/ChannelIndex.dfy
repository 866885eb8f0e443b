/**
 Which gateway player listens to which chat channel (apps/gateway/events-broadcaster/chat-channels.go): member sets per
 channel, a reverse index per player, and one bounded event stream per player. Operations are atomic here.
 */
module ChannelIndex {
  import opened Words

  type Guid = uint64
  type Name = string

  /** The capacity of a player's stream. */
  const STREAM: nat := 32

  datatype Index<E> = Index(channels: map<Name, set<Guid>>, players: map<Guid, set<Name>>, streams: map<Guid, seq<E>>)

  datatype Op<E> = Add(p: Guid, c: Name) | Remove(p: Guid, c: Name) | Say(c: Name, e: E) | Disconnect(p: Guid) | Read(p: Guid)

  function MembersOf<E>(s: Index<E>, c: Name): set<Guid> {
    if c in s.channels then s.channels[c] else {}
  }

  function ChannelsOf<E>(s: Index<E>, p: Guid): set<Name> {
    if p in s.players then s.players[p] else {}
  }

  /** A stream that is full drops the event. */
  function Offer<E>(stream: seq<E>, e: E): seq<E> {
    if |stream| < STREAM then stream + [e] else stream
  }

  function Broadcast<E>(streams: map<Guid, seq<E>>, to: set<Guid>, e: E): map<Guid, seq<E>> {
    map p | p in streams :: if p in to then Offer(streams[p], e) else streams[p]
  }

  /** p taken out of the named channels. */
  function Without(channels: map<Name, set<Guid>>, names: set<Name>, p: Guid): map<Name, set<Guid>> {
    map c | c in channels :: if c in names then channels[c] - {p} else channels[c]
  }

  function Apply<E>(s: Index<E>, op: Op<E>): Index<E> {
    match op
    case Add(p, c) =>
      Index(
        s.channels[c := MembersOf(s, c) + {p}],
        s.players[p := ChannelsOf(s, p) + {c}],
        if p in s.streams then s.streams else s.streams[p := []])
    case Remove(p, c) =>
      s.(channels := Without(s.channels, {c}, p),
         players := if p !in s.players then s.players
                    else if s.players[p] - {c} == {} then s.players - {p}
                    else s.players[p := s.players[p] - {c}])
    case Say(c, e) => s.(streams := Broadcast(s.streams, MembersOf(s, c), e))
    case Disconnect(p) =>
      Index(Without(s.channels, ChannelsOf(s, p), p), s.players - {p}, s.streams - {p})
    case Read(p) =>
      if p in s.streams && s.streams[p] != [] then s.(streams := s.streams[p := s.streams[p][1..]]) else s
  }

  function Run<E>(s: Index<E>, ops: seq<Op<E>>): Index<E>
    decreases |ops|
  {
    if ops == [] then s else Run(Apply(s, ops[0]), ops[1..])
  }

  /** The two directions of the index agree, and whoever is in a channel has an open stream. */
  ghost predicate Inv<E>(s: Index<E>) {
    && (forall p, c :: p in MembersOf(s, c) <==> c in ChannelsOf(s, p))
    && (forall p :: p in s.players ==> p in s.streams && s.players[p] != {})
    && (forall p :: p in s.streams ==> |s.streams[p]| <= STREAM)
  }

  // ----- a player alone -----

  /** What the index comes to for one player: a mailbox that subscribes to channels. */
  datatype Box<E> = Box(open: bool, subscribed: set<Name>, inbox: seq<E>)

  function Project<E>(s: Index<E>, p: Guid): Box<E> {
    Box(p in s.streams, ChannelsOf(s, p), if p in s.streams then s.streams[p] else [])
  }

  function ApplyBox<E>(b: Box<E>, p: Guid, op: Op<E>): Box<E> {
    match op
    case Add(q, c) => if q == p then b.(open := true, subscribed := b.subscribed + {c}) else b
    case Remove(q, c) => if q == p then b.(subscribed := b.subscribed - {c}) else b
    case Say(c, e) => if c in b.subscribed && |b.inbox| < 32 then b.(inbox := b.inbox + [e]) else b
    case Disconnect(q) => if q == p then Box(false, {}, []) else b
    case Read(q) => if q == p && b.inbox != [] then b.(inbox := b.inbox[1..]) else b
  }

  function RunBox<E>(b: Box<E>, p: Guid, ops: seq<Op<E>>): Box<E>
    decreases |ops|
  {
    if ops == [] then b else RunBox(ApplyBox(b, p, ops[0]), p, ops[1..])
  }

  lemma AddKeepsInv<E>(s: Index<E>, op: Op<E>)
    requires Inv(s) && op.Add?
    ensures Inv(Apply(s, op))
  {
    var s' := Apply(s, op);
    forall p, c ensures p in MembersOf(s', c) <==> c in ChannelsOf(s', p) {
      assert p in MembersOf(s, c) <==> c in ChannelsOf(s, p);
    }
  }

  lemma RemoveKeepsInv<E>(s: Index<E>, op: Op<E>)
    requires Inv(s) && op.Remove?
    ensures Inv(Apply(s, op))
  {
    var s' := Apply(s, op);
    forall p, c ensures p in MembersOf(s', c) <==> c in ChannelsOf(s', p) {
      assert p in MembersOf(s, c) <==> c in ChannelsOf(s, p);
    }
  }

  lemma DisconnectKeepsInv<E>(s: Index<E>, op: Op<E>)
    requires Inv(s) && op.Disconnect?
    ensures Inv(Apply(s, op))
    ensures forall c :: op.p !in MembersOf(Apply(s, op), c)
  {
    var s' := Apply(s, op);
    forall p, c ensures p in MembersOf(s', c) <==> c in ChannelsOf(s', p) {
      assert p in MembersOf(s, c) <==> c in ChannelsOf(s, p);
    }
    forall c ensures op.p !in MembersOf(s', c) {
      assert op.p in MembersOf(s', c) <==> c in ChannelsOf(s', op.p);
    }
  }

  lemma StreamOpsKeepInv<E>(s: Index<E>, op: Op<E>)
    requires Inv(s) && (op.Say? || op.Read?)
    ensures Inv(Apply(s, op))
  {
    var s' := Apply(s, op);
    assert s'.channels == s.channels && s'.players == s.players && s'.streams.Keys == s.streams.Keys;
    forall p, c ensures p in MembersOf(s', c) <==> c in ChannelsOf(s', p) {
      assert p in MembersOf(s, c) <==> c in ChannelsOf(s, p);
    }
  }

  lemma StepKeepsInv<E>(s: Index<E>, op: Op<E>)
    requires Inv(s)
    ensures Inv(Apply(s, op))
  {
    match op
    case Add(_, _) => AddKeepsInv(s, op);
    case Remove(_, _) => RemoveKeepsInv(s, op);
    case Say(_, _) => StreamOpsKeepInv(s, op);
    case Disconnect(_) => DisconnectKeepsInv(s, op);
    case Read(_) => StreamOpsKeepInv(s, op);
  }

  lemma StepProjects<E>(s: Index<E>, p: Guid, op: Op<E>)
    requires Inv(s)
    ensures Project(Apply(s, op), p) == ApplyBox(Project(s, p), p, op)
  {
    if op.Say? {
      assert p in MembersOf(s, op.c) <==> op.c in ChannelsOf(s, p);
    }
  }

  /**
   The index serves every player as if they had a mailbox of their own: they receive, in order, exactly what is said
   in the channels they are in at that moment while their stream has room, whatever others do.
   */
  lemma {:induction false} EveryPlayerHasAMailbox<E>(s: Index<E>, p: Guid, ops: seq<Op<E>>)
    requires Inv(s)
    ensures Inv(Run(s, ops)) && Project(Run(s, ops), p) == RunBox(Project(s, p), p, ops)
    decreases |ops|
  {
    if ops != [] {
      StepKeepsInv(s, ops[0]);
      StepProjects(s, p, ops[0]);
      EveryPlayerHasAMailbox(Apply(s, ops[0]), p, ops[1..]);
    }
  }

  // ----- the service object -----

  class ChatChannelsService<E> {
    var channels: map<Name, set<Guid>>
    var playerChannels: map<Guid, set<Name>>
    var streams: map<Guid, seq<E>>

    function State(): Index<E>
      reads this
    {
      Index(channels, playerChannels, streams)
    }

    constructor ()
      ensures State() == Index(map[], map[], map[]) && Inv(State())
    {
      channels, playerChannels, streams := map[], map[], map[];
    }

    method AddPlayerToChannel(p: Guid, c: Name)
      modifies this
      ensures State() == Apply(old(State()), Add(p, c))
    {
      if c !in channels { channels := channels[c := {}]; }
      channels := channels[c := channels[c] + {p}];
      assert channels == old(channels)[c := MembersOf(old(State()), c) + {p}];
      if p !in playerChannels { playerChannels := playerChannels[p := {}]; }
      playerChannels := playerChannels[p := playerChannels[p] + {c}];
      assert playerChannels == old(playerChannels)[p := ChannelsOf(old(State()), p) + {c}];
      if p !in streams { streams := streams[p := []]; }
    }

    method RemovePlayerFromChannel(p: Guid, c: Name)
      modifies this
      ensures State() == Apply(old(State()), Remove(p, c))
    {
      if c in channels { channels := channels[c := channels[c] - {p}]; }
      if p in playerChannels {
        playerChannels := playerChannels[p := playerChannels[p] - {c}];
        if |playerChannels[p]| == 0 { playerChannels := playerChannels - {p}; }
      }
    }

    method BroadcastToChannel(c: Name, e: E)
      modifies `streams
      ensures State() == Apply(old(State()), Say(c, e))
    {
      if c !in channels { return; }
      var left := channels[c];
      while left != {}
        invariant left <= channels[c]
        invariant streams == Broadcast(old(streams), channels[c] - left, e)
        decreases |left|
      {
        var p :| p in left;
        SayToOne(old(streams), channels[c], left, p, e);
        left := left - {p};
        if p in streams && |streams[p]| < STREAM { streams := streams[p := streams[p] + [e]]; }
      }
    }

    method DisconnectPlayer(p: Guid)
      modifies this
      ensures State() == Apply(old(State()), Disconnect(p))
    {
      if p in playerChannels {
        var left := playerChannels[p];
        playerChannels := playerChannels - {p};
        ghost var names := left;
        while left != {}
          invariant left <= names
          invariant playerChannels == old(playerChannels) - {p} && streams == old(streams)
          invariant channels == Without(old(channels), names - left, p)
          decreases |left|
        {
          var c :| c in left;
          left := left - {c};
          if c in channels { channels := channels[c := channels[c] - {p}]; }
        }
      }
      streams := streams - {p};
    }
  }

  lemma SayToOne<E>(streams: map<Guid, seq<E>>, all: set<Guid>, left: set<Guid>, p: Guid, e: E)
    requires p in left && left <= all
    ensures var now := Broadcast(streams, all - left, e);
            Broadcast(streams, all - (left - {p}), e) == if p in now then now[p := Offer(now[p], e)] else now
  {
  }
}
