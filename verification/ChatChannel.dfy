/**
 Ownership of a chat channel (apps/chatserver/service/channel-manager.go). The channel's members live in memory and,
 written through, in a table; every write may fail, and the order in which a map is walked is arbitrary. Both are
 arguments of the operations.
 */
module ChatChannel {
  import opened Words

  type Guid = uint64

  /** The bits of a member's flag byte. */
  datatype Flag = Owner | Moderator | Voiced | Muted | Custom | MicMuted

  datatype Member = Member(name: string, flags: set<Flag>)

  type Members = map<Guid, Member>

  /** owner 0 means none; rights lists the GUIDs that join as moderators; bans hold expiry times. */
  datatype Channel = Channel(
    members: Members, owner: Guid, ownership: bool, password: string, rights: set<Guid>, bans: map<Guid, int>,
    rows: Members)

  // ----- the table -----

  function UpdateFlags(rows: Members, g: Guid, flags: set<Flag>): Members {
    if g in rows then rows[g := rows[g].(flags := flags)] else rows
  }

  // ----- succession -----

  /** A moderator if there is one, else any member; 0 only when there is nobody. */
  ghost predicate Heir(candidates: Members, g: Guid) {
    if candidates == map[] then g == 0
    else
      && g in candidates
      && ((exists m :: m in candidates && Moderator in candidates[m].flags) ==> Moderator in candidates[g].flags)
  }

  function Crown(members: Members, g: Guid): Members
    requires g in members
  {
    members[g := members[g].(flags := members[g].flags + {Owner})]
  }

  function Depose(members: Members, g: Guid): Members
    requires g in members
  {
    members[g := members[g].(flags := members[g].flags - {Owner})]
  }

  // ----- operations -----

  datatype Reply = Done | Banned | WrongPassword | NotMember | NotModerator | NotFound | Failed

  function FirstFlags(owner: bool, moderator: bool): set<Flag> {
    (if owner then {Owner} else {}) + if moderator then {Moderator} else {}
  }

  function Join(c: Channel, g: Guid, name: string, password: string, now: int, saved: bool): (Channel, Reply) {
    if g in c.bans && c.bans[g] > now then (c, Banned)
    else if c.password != "" && c.password != password then (c, WrongPassword)
    else if g in c.members then (c, Done)
    else
      var first := |c.members| == 0 && c.ownership;
      var m := Member(name, FirstFlags(first, g in c.rights));
      // a failed save takes the member out again, but not the owner
      var c1 := if first then c.(owner := g) else c;
      if saved then (c1.(members := c.members[g := m], rows := c.rows[g := m]), Done) else (c1, Failed)
  }

  function Leave(c: Channel, g: Guid, removed: bool, heir: Guid, saved: bool): (Channel, Reply)
    requires heir in c.members - {g} || heir == 0
  {
    if g !in c.members then (c, NotMember)
    else if !removed then (c, Failed)
    else
      var rest := c.members - {g};
      var c1 := c.(members := rest, rows := c.rows - {g});
      if Owner in c.members[g].flags && |rest| > 0 && c.ownership && heir != 0 then
        var crowned := Crown(rest, heir);
        (c1.(members := crowned, owner := heir,
             rows := if saved then UpdateFlags(c1.rows, heir, crowned[heir].flags) else c1.rows), Done)
      else (c1, Done)
  }

  /** SetModerator and SetMute. */
  function SetFlag(c: Channel, g: Guid, flag: Flag, on: bool, saved: bool): (Channel, Reply) {
    if g !in c.members then (c, NotMember)
    else if !saved then (c, Failed)
    else
      var flags := if on then c.members[g].flags + {flag} else c.members[g].flags - {flag};
      (c.(members := c.members[g := c.members[g].(flags := flags)], rows := UpdateFlags(c.rows, g, flags)), Done)
  }

  /** SetOwner: two writes, each rolled back in memory when it fails. */
  function SetOwner(c: Channel, g: Guid, deposed: bool, crowned: bool): (Channel, Reply) {
    if g !in c.members then (c, NotFound)
    else
      var hasOld := c.owner != 0 && c.owner in c.members;
      if hasOld && !deposed then (c, Failed)
      else
        var ms := if hasOld then Depose(c.members, c.owner) else c.members;
        var rs := if hasOld then UpdateFlags(c.rows, c.owner, ms[c.owner].flags) else c.rows;
        if !crowned then (c.(rows := rs), Failed)
        else
          var ms' := Crown(ms, g);
          (c.(members := ms', owner := g, rows := UpdateFlags(rs, g, ms'[g].flags)), Done)
  }

  /** TransferOwnershipOnLogout, for one channel: the owner stays a member. */
  function Logout(c: Channel, g: Guid, heir: Guid, deposed: bool, crowned: bool): Channel
    requires heir in c.members - {g} || heir == 0
  {
    if g !in c.members || Owner !in c.members[g].flags || !c.ownership || heir == 0 then c
    else
      var ms := Depose(c.members, g);
      var rs := if deposed then UpdateFlags(c.rows, g, ms[g].flags) else c.rows;
      var ms' := Crown(ms, heir);
      c.(members := ms', owner := heir, rows := if crowned then UpdateFlags(rs, heir, ms'[heir].flags) else rs)
  }

  /** The members a prune keeps. */
  function Online(members: Members, online: set<Guid>): Members {
    map g | g in members && g in online :: members[g]
  }

  /** PruneOfflineMembers; stuck are the rows whose removal failed. */
  function Prune(c: Channel, online: set<Guid>, stuck: set<Guid>, heir: Guid, saved: bool): Channel
    requires heir in Online(c.members, online) || heir == 0
  {
    var kept := Online(c.members, online);
    var c1 := c.(members := kept, rows := c.rows - (c.members.Keys - online - stuck));
    if c.owner == 0 || c.owner in online then c1
    else if |kept| > 0 && c.ownership && heir != 0 then
      var crowned := Crown(kept, heir);
      c1.(members := crowned, owner := heir,
          rows := if saved then UpdateFlags(c1.rows, heir, crowned[heir].flags) else c1.rows)
    else c1.(owner := 0)
  }

  function Ban(c: Channel, g: Guid, until: int): Channel {
    c.(bans := c.bans[g := until])
  }

  /** GetOrCreateChannel: owner is the last loaded row with the owner flag. */
  ghost predicate Loads(rows: Members, owner: Guid) {
    if exists g :: g in rows && Owner in rows[g].flags then owner in rows && Owner in rows[owner].flags else owner == 0
  }

  // ----- runs -----

  datatype Op =
    | JoinOp(who: Guid, name: string, password: string, now: int, saved: bool)
    | LeaveOp(who: Guid, removed: bool, heir: Guid, saved: bool)
    | FlagOp(who: Guid, flag: Flag, on: bool, saved: bool)
    | OwnerOp(who: Guid, deposed: bool, crowned: bool)
    | LogoutOp(who: Guid, heir: Guid, deposed: bool, crowned: bool)
    | PruneOp(online: set<Guid>, stuck: set<Guid>, heir: Guid, saved: bool)
    | BanOp(who: Guid, until: int)

  /** Whether the channel needs a new owner once g is gone. */
  predicate Vacates(c: Channel, g: Guid) {
    g in c.members && Owner in c.members[g].flags && c.ownership
  }

  predicate PruneVacates(c: Channel, online: set<Guid>) {
    c.owner != 0 && c.owner !in online && c.ownership
  }

  /** The choices an operation comes with are possible ones: heirs as the succession loops pick them, 0 without one. */
  ghost predicate Possible(c: Channel, op: Op) {
    match op
    case JoinOp(g, _, _, _, _) => g != 0
    case LeaveOp(g, removed, heir, _) => if removed && Vacates(c, g) then Heir(c.members - {g}, heir) else heir == 0
    case FlagOp(_, flag, _, _) => flag == Moderator || flag == Muted
    case OwnerOp(_, _, _) => true
    case LogoutOp(g, heir, _, _) => if Vacates(c, g) then Heir(c.members - {g}, heir) else heir == 0
    case PruneOp(online, _, heir, _) =>
      if PruneVacates(c, online) then Heir(Online(c.members, online), heir) else heir == 0
    case BanOp(_, _) => true
  }

  ghost function Apply(c: Channel, op: Op): Channel
    requires Possible(c, op)
  {
    match op
    case JoinOp(g, name, password, now, saved) => Join(c, g, name, password, now, saved).0
    case LeaveOp(g, removed, heir, saved) => Leave(c, g, removed, heir, saved).0
    case FlagOp(g, flag, on, saved) => SetFlag(c, g, flag, on, saved).0
    case OwnerOp(g, deposed, crowned) => SetOwner(c, g, deposed, crowned).0
    case LogoutOp(g, heir, deposed, crowned) => Logout(c, g, heir, deposed, crowned)
    case PruneOp(online, stuck, heir, saved) => Prune(c, online, stuck, heir, saved)
    case BanOp(g, until) => Ban(c, g, until)
  }

  /** Exactly one member holds the owner flag, and it is the recorded owner. */
  ghost predicate OneOwner(members: Members, owner: Guid) {
    owner in members && forall g :: g in members ==> (Owner in members[g].flags <==> g == owner)
  }

  ghost predicate Inv(c: Channel) {
    0 !in c.members && (c.ownership && c.members != map[] ==> OneOwner(c.members, c.owner))
  }

  lemma JoinKeepsInv(c: Channel, op: Op)
    requires Inv(c) && op.JoinOp? && Possible(c, op)
    ensures Inv(Apply(c, op))
  {
  }

  lemma LeaveKeepsInv(c: Channel, op: Op)
    requires Inv(c) && op.LeaveOp? && Possible(c, op)
    ensures Inv(Apply(c, op))
  {
    if op.who in c.members {
      var rest := c.members - {op.who};
      assert |rest| > 0 <==> rest != map[];
    }
  }

  lemma SetOwnerKeepsInv(c: Channel, op: Op)
    requires Inv(c) && op.OwnerOp? && Possible(c, op)
    ensures Inv(Apply(c, op))
  {
  }

  lemma LogoutKeepsInv(c: Channel, op: Op)
    requires Inv(c) && op.LogoutOp? && Possible(c, op)
    ensures Inv(Apply(c, op))
  {
  }

  lemma PruneKeepsInv(c: Channel, op: Op)
    requires Inv(c) && op.PruneOp? && Possible(c, op)
    ensures Inv(Apply(c, op))
  {
    var kept := Online(c.members, op.online);
    assert |kept| > 0 <==> kept != map[];
  }

  lemma StepKeepsInv(c: Channel, op: Op)
    requires Inv(c) && Possible(c, op)
    ensures Inv(Apply(c, op)) && Apply(c, op).ownership == c.ownership
  {
    match op
    case JoinOp(_, _, _, _, _) => JoinKeepsInv(c, op);
    case LeaveOp(_, _, _, _) => LeaveKeepsInv(c, op);
    case FlagOp(_, _, _, _) =>
    case OwnerOp(_, _, _) => SetOwnerKeepsInv(c, op);
    case LogoutOp(_, _, _, _) => LogoutKeepsInv(c, op);
    case PruneOp(_, _, _, _) => PruneKeepsInv(c, op);
    case BanOp(_, _) =>
  }
}
